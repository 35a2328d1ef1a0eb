/// Analog output (`AnalogOutput`): validation of the configuration
/// dictionaries, the per-bank channel bitmask, the chunked DMA FIFO writer
/// with its headroom polling, single- and multiple-point writes, and the
/// reference count of n-sample sessions released by `close`.
module AOSession {
  import opened Common
  import opened Hardware
  import opened SampleRate
  import opened Bits
  import AIConfig

  /// Channels AO0 and AO1 on each bank.
  const MaxOutputChannel: int := 1

  /// The first FIFO write of a long payload, and each later one.
  const FirstWriteLimit: nat := 10000
  const RefillSize: nat := 5000

  /// One configuration dictionary; a missing key is None.
  datatype OutputDict = OutputDict(bank: Option<AIConfig.BankArg>, channel: Option<int>)

  /// A validated output channel.
  datatype OutputChannel = OutputChannel(bank: Bank, channel: nat)

  /// The four assertions of the constructor, in source order.
  function ValidateOutput(d: OutputDict): (r: Result<OutputChannel>)
    ensures r.Ok? <==>
      d.bank.Some? && d.channel.Some? && d.bank.value.NamedBank? && 0 <= d.channel.value <= MaxOutputChannel
    ensures r.Err? ==>
      r.error == (if d.bank.None? then MissingBank
                  else if d.channel.None? then MissingChannel
                  else if d.bank.value.NotABank? then InvalidBank
                  else InvalidChannel)
    ensures r.Ok? ==> r.value == OutputChannel(d.bank.value.bank, d.channel.value)
  {
    if d.bank.None? then Err(MissingBank)
    else if d.channel.None? then Err(MissingChannel)
    else if d.bank.value.NotABank? then Err(InvalidBank)
    else if !(0 <= d.channel.value <= MaxOutputChannel) then Err(InvalidChannel)
    else Ok(OutputChannel(d.bank.value.bank, d.channel.value))
  }

  /// `channel_list`: the dictionaries in call order; the first one that fails
  /// a check decides the error.
  function OutputChannels(ds: seq<OutputDict>): (r: Result<seq<OutputChannel>>)
    ensures r.Ok? <==> forall k :: 0 <= k < |ds| ==> ValidateOutput(ds[k]).Ok?
    ensures r.Ok? ==> |r.value| == |ds| && forall k :: 0 <= k < |ds| ==> r.value[k] == ValidateOutput(ds[k]).value
    ensures r.Err? ==>
      exists k :: (0 <= k < |ds| && ValidateOutput(ds[k]).Err? && r.error == ValidateOutput(ds[k]).error
                   && forall j :: 0 <= j < k ==> ValidateOutput(ds[j]).Ok?)
  {
    if ds == [] then Ok([])
    else
      var first := ValidateOutput(ds[0]);
      if first.Err? then
        Err(first.error)
      else
        var rest := OutputChannels(ds[1..]);
        if rest.Err? then
          var k :| 0 <= k < |ds[1..]| && ValidateOutput(ds[1..][k]).Err? && rest.error == ValidateOutput(ds[1..][k]).error
            && forall j :: 0 <= j < k ==> ValidateOutput(ds[1..][j]).Ok?;
          assert forall j :: 0 <= j < k + 1 ==> ValidateOutput(ds[j]).Ok? by {
            forall j | 0 <= j < k + 1 ensures ValidateOutput(ds[j]).Ok? {
              if j > 0 {
                assert ds[j] == ds[1..][j - 1];
              }
            }
          }
          assert ds[k + 1] == ds[1..][k];
          Err(rest.error)
        else
          assert forall k :: 1 <= k < |ds| ==> ds[k] == ds[1..][k - 1];
          Ok([first.value] + rest.value)
  }

  /// Channel `c` of bank `b` is among the session's channels.
  predicate Uses(channels: seq<OutputChannel>, b: Bank, c: nat)
  {
    OutputChannel(b, c) in channels
  }

  /// Some channel of the session is on bank `b`.
  predicate UsesBank(channels: seq<OutputChannel>, b: Bank)
  {
    exists i :: 0 <= i < |channels| && channels[i].bank == b
  }

  /// The DMA_ENA value of a bank: 0b10 when AO1 is used, ORed with 0b01 when
  /// AO0 is used.
  function BankBitmask(channels: seq<OutputChannel>, b: Bank): nat
  {
    BankMask(Uses(channels, b, 0), Uses(channels, b, 1))
  }

  function BankMask(ao0: bool, ao1: bool): nat
  {
    var high: nat := if ao1 then 2 else 0;
    if ao0 then Or(high, 1) else high
  }

  /// Bit c of a bank's bitmask is set exactly when AOc of that bank is used,
  /// and no other bit is: AO0 is bit 0 and AO1 is bit 1.
  lemma BitmaskBits(channels: seq<OutputChannel>, b: Bank)
    ensures Bit(BankBitmask(channels, b), 0) <==> Uses(channels, b, 0)
    ensures Bit(BankBitmask(channels, b), 1) <==> Uses(channels, b, 1)
    ensures BankBitmask(channels, b) < 4
  {
    var high: nat := if Uses(channels, b, 1) then 2 else 0;
    assert Bit(2, 1) && !Bit(2, 0) && !Bit(0, 1) && !Bit(0, 0);
    if Uses(channels, b, 0) {
      OrShiftedAdd(1, if Uses(channels, b, 1) then 1 else 0, 1);
      assert Or(1, high) == 1 + high;
      OrComm(high, 1);
      assert Bit(1 + high, 0);
      assert Bit(1 + high, 1) <==> Uses(channels, b, 1);
    }
  }

  /// A session on AO0 alone enables bit 0 (value 1), not the value 2 a
  /// comment in the driver gives for AO0.
  lemma AO0AloneIsOne(b: Bank)
    ensures BankBitmask([OutputChannel(b, 0)], b) == 1
  {
    assert !Uses([OutputChannel(b, 0)], b, 1);
    assert Or(0, 1) == 1;
  }

  /// `__calculate_bitmask`: marks each used (bank, channel) pair, then
  /// builds each bank's DMA_ENA value.
  method CalculateBitmask(channels: seq<OutputChannel>) returns (masks: PerBank<nat>)
    requires forall i :: 0 <= i < |channels| ==> channels[i].channel <= MaxOutputChannel
    ensures masks.a == BankBitmask(channels, A) && masks.b == BankBitmask(channels, B)
  {
    var ao0 := Both(false);
    var ao1 := Both(false);
    var i := 0;
    while i < |channels|
      invariant 0 <= i <= |channels|
      invariant forall b :: ao0.Get(b) <==> Uses(channels[..i], b, 0)
      invariant forall b :: ao1.Get(b) <==> Uses(channels[..i], b, 1)
    {
      var c := channels[i];
      assert channels[..i + 1] == channels[..i] + [c];
      if c.channel == 0 {
        ao0 := ao0.Set(c.bank, true);
      } else {
        ao1 := ao1.Set(c.bank, true);
      }
      i := i + 1;
    }
    assert channels[..i] == channels;
    masks := PerBank(BankMask(ao0.a, ao1.a), BankMask(ao0.b, ao1.b));
  }

  /// Everything after the first write of a long payload: poll the headroom
  /// with an empty write, then write 5000 samples when more than 5000
  /// places are free and everything left otherwise, until nothing is left.
  /// `headroom(i)` is what the i-th poll reports.
  function Refills(rest: seq<int>, headroom: nat -> nat, poll: nat): seq<seq<int>>
    decreases |rest|
  {
    if rest == [] then []
    else
      var n := Taken(rest, headroom(poll));
      [[], rest[..n]] + Refills(rest[n..], headroom, poll + 1)
  }

  /// How much of `rest` one refill writes when the poll reported `free`.
  function Taken(rest: seq<int>, free: nat): (n: nat)
    ensures rest != [] ==> 0 < n <= |rest|
  {
    if free > RefillSize then Min(RefillSize, |rest|) else |rest|
  }

  /// The payloads of every `dma.write` of `__write`, polls included.
  function Payloads(data: seq<int>, headroom: nat -> nat): seq<seq<int>>
  {
    if |data| <= FirstWriteLimit then [data]
    else [data[..FirstWriteLimit]] + Refills(data[FirstWriteLimit..], headroom, 0)
  }

  function Flatten(ps: seq<seq<int>>): seq<int>
  {
    if ps == [] then [] else ps[0] + Flatten(ps[1..])
  }

  lemma {:induction false} FlattenAppend(xs: seq<seq<int>>, ys: seq<seq<int>>)
    ensures Flatten(xs + ys) == Flatten(xs) + Flatten(ys)
    decreases |xs|
  {
    if xs == [] {
      assert xs + ys == ys;
    } else {
      assert (xs + ys)[1..] == xs[1..] + ys;
      FlattenAppend(xs[1..], ys);
      AppendAssoc(xs[0], Flatten(xs[1..]), Flatten(ys));
    }
  }

  lemma {:induction false} RefillsFlatten(rest: seq<int>, headroom: nat -> nat, poll: nat)
    ensures Flatten(Refills(rest, headroom, poll)) == rest
    decreases |rest|
  {
    if rest != [] {
      var n := Taken(rest, headroom(poll));
      var tail := Refills(rest[n..], headroom, poll + 1);
      RefillsFlatten(rest[n..], headroom, poll + 1);
      FlattenAppend([[], rest[..n]], tail);
      assert Flatten([[], rest[..n]]) == rest[..n] by {
        assert [[], rest[..n]][1..] == [rest[..n]];
        assert [rest[..n]][1..] == [];
      }
      assert rest[..n] + rest[n..] == rest;
    }
  }

  /// The writes, read back in order, are exactly the data: every sample is
  /// sent once and none is reordered, whatever headroom the polls report.
  lemma PayloadsFlatten(data: seq<int>, headroom: nat -> nat)
    ensures Flatten(Payloads(data, headroom)) == data
  {
    if |data| <= FirstWriteLimit {
      assert [data][1..] == [];
      assert Flatten([data]) == data + [];
    } else {
      RefillsFlatten(data[FirstWriteLimit..], headroom, 0);
      FlattenAppend([data[..FirstWriteLimit]], Refills(data[FirstWriteLimit..], headroom, 0));
      assert [data[..FirstWriteLimit]][1..] == [];
      assert Flatten([data[..FirstWriteLimit]]) == data[..FirstWriteLimit] + [];
      assert data[..FirstWriteLimit] + data[FirstWriteLimit..] == data;
    }
  }

  /// The refills alternate an empty poll and a non-empty write; each write
  /// but the last holds exactly 5000 samples, and the last holds more than
  /// 5000 only when its poll reported at most 5000 free places.
  lemma {:induction false} RefillsShape(rest: seq<int>, headroom: nat -> nat, poll: nat)
    ensures var ps := Refills(rest, headroom, poll);
      |ps| % 2 == 0
      && (forall j :: 0 <= j < |ps| && j % 2 == 0 ==> ps[j] == [])
      && (forall j :: 0 <= j < |ps| && j % 2 == 1 ==> ps[j] != [])
      && (forall j :: 0 <= j < |ps| - 1 && j % 2 == 1 ==> |ps[j]| == RefillSize)
      && (forall j :: 0 <= j < |ps| && j % 2 == 1 && |ps[j]| > RefillSize ==>
            headroom(poll + j / 2) <= RefillSize)
    decreases |rest|
  {
    if rest != [] {
      var n := Taken(rest, headroom(poll));
      var tail := Refills(rest[n..], headroom, poll + 1);
      RefillsShape(rest[n..], headroom, poll + 1);
      var ps := [[], rest[..n]] + tail;
      assert ps == Refills(rest, headroom, poll);
      forall j | 2 <= j < |ps|
        ensures ps[j] == tail[j - 2]
      {
      }
      // A refill that is not full takes everything, so no write follows it.
      if headroom(poll) <= RefillSize || |rest| <= RefillSize {
        assert rest[n..] == [];
      }
      forall j | 0 <= j < |ps| && j % 2 == 1 && |ps[j]| > RefillSize
        ensures headroom(poll + j / 2) <= RefillSize
      {
        if j >= 2 {
          assert poll + 1 + (j - 2) / 2 == poll + j / 2;
        }
      }
    }
  }

  /// When every poll reports more than 5000 free places, no write exceeds
  /// 10000 samples.
  lemma AmpleHeadroomBounded(data: seq<int>, headroom: nat -> nat)
    requires forall i :: headroom(i) > RefillSize
    ensures forall j :: 0 <= j < |Payloads(data, headroom)| ==> |Payloads(data, headroom)[j]| <= FirstWriteLimit
  {
    if |data| > FirstWriteLimit {
      var ps := Refills(data[FirstWriteLimit..], headroom, 0);
      RefillsShape(data[FirstWriteLimit..], headroom, 0);
      assert forall j :: 0 <= j < |ps| ==> |ps[j]| <= RefillSize;
      forall j | 1 <= j < |Payloads(data, headroom)|
        ensures Payloads(data, headroom)[j] == ps[j - 1]
      {
      }
    }
  }

  /// The depth `write` gives a bank's output FIFO: `maximum_samples * 20`.
  /// The FIFO is empty when a bank's write starts, because the previous
  /// write waited for its completion interrupt, so the first write of at
  /// most 10000 samples always fits.
  const FifoDepth: nat := 200000

  /// Every refill write fits in the headroom its poll reported. A
  /// 5000-sample refill follows a poll that reported more than 5000 free
  /// places, so only the write of everything left can fail to fit.
  predicate RefillsFit(rest: seq<int>, headroom: nat -> nat, poll: nat)
    decreases |rest|
  {
    rest == []
    || (var n := Taken(rest, headroom(poll));
        n <= headroom(poll) && RefillsFit(rest[n..], headroom, poll + 1))
  }

  /// The samples the FIFO accepts from the refills. A write that does not
  /// fit times out with nothing written, and it ends the writer.
  function RefillsAccepted(rest: seq<int>, headroom: nat -> nat, poll: nat): seq<int>
    decreases |rest|
  {
    if rest == [] then []
    else
      var n := Taken(rest, headroom(poll));
      if n <= headroom(poll) then rest[..n] + RefillsAccepted(rest[n..], headroom, poll + 1) else []
  }

  /// Every write of `__write` fits.
  predicate Fits(data: seq<int>, headroom: nat -> nat)
  {
    |data| <= FirstWriteLimit || RefillsFit(data[FirstWriteLimit..], headroom, 0)
  }

  /// The samples the bank's FIFO receives from `__write`.
  function Accepted(data: seq<int>, headroom: nat -> nat): seq<int>
  {
    if |data| <= FirstWriteLimit then data
    else data[..FirstWriteLimit] + RefillsAccepted(data[FirstWriteLimit..], headroom, 0)
  }

  lemma {:induction false} RefillsAcceptedPrefix(rest: seq<int>, headroom: nat -> nat, poll: nat)
    ensures RefillsAccepted(rest, headroom, poll) <= rest
    ensures RefillsFit(rest, headroom, poll) <==> RefillsAccepted(rest, headroom, poll) == rest
    decreases |rest|
  {
    if rest != [] {
      var n := Taken(rest, headroom(poll));
      if n <= headroom(poll) {
        var tail := RefillsAccepted(rest[n..], headroom, poll + 1);
        RefillsAcceptedPrefix(rest[n..], headroom, poll + 1);
        assert rest[..n] + rest[n..] == rest;
        if RefillsAccepted(rest, headroom, poll) == rest {
          assert (rest[..n] + tail)[n..] == tail;
        }
      }
    }
  }

  /// The FIFO receives a prefix of the data, and all of it exactly when
  /// every write fits.
  lemma AcceptedPrefix(data: seq<int>, headroom: nat -> nat)
    ensures Accepted(data, headroom) <= data
    ensures Fits(data, headroom) <==> Accepted(data, headroom) == data
  {
    if |data| > FirstWriteLimit {
      var rest := data[FirstWriteLimit..];
      RefillsAcceptedPrefix(rest, headroom, 0);
      assert data[..FirstWriteLimit] + rest == data;
      if Accepted(data, headroom) == data {
        assert (data[..FirstWriteLimit] + RefillsAccepted(rest, headroom, 0))[FirstWriteLimit..]
          == RefillsAccepted(rest, headroom, 0);
      }
    }
  }

  /// A refill that does not fit is the last write: it held everything
  /// left, more than its poll reported free, and the FIFO has everything
  /// before it.
  lemma {:induction false} RefillsLoss(rest: seq<int>, headroom: nat -> nat, poll: nat)
    requires !RefillsFit(rest, headroom, poll)
    ensures var ps := Refills(rest, headroom, poll);
      ps != [] && RefillsAccepted(rest, headroom, poll) + ps[|ps| - 1] == rest
      && |ps[|ps| - 1]| > headroom(poll + (|ps| - 1) / 2)
    decreases |rest|
  {
    var n := Taken(rest, headroom(poll));
    var ps := Refills(rest, headroom, poll);
    var tail := Refills(rest[n..], headroom, poll + 1);
    assert ps == [[], rest[..n]] + tail;
    if n <= headroom(poll) {
      RefillsLoss(rest[n..], headroom, poll + 1);
      assert ps[|ps| - 1] == tail[|tail| - 1];
      AppendAssoc(rest[..n], RefillsAccepted(rest[n..], headroom, poll + 1), tail[|tail| - 1]);
      assert rest[..n] + rest[n..] == rest;
      assert poll + 1 + (|tail| - 1) / 2 == poll + (|ps| - 1) / 2;
    } else {
      assert rest[n..] == [] && rest[..n] == rest;
      assert ps == [[], rest];
    }
  }

  /// When a write times out it is the last one, and the FIFO has every
  /// sample before it and none of it: the lost samples are that write's.
  lemma FifoTimeoutLosesLastWrite(data: seq<int>, headroom: nat -> nat)
    requires !Fits(data, headroom)
    ensures var ps := Payloads(data, headroom);
      |ps| >= 3 && Accepted(data, headroom) + ps[|ps| - 1] == data
      && |ps[|ps| - 1]| > headroom((|ps| - 2) / 2)
  {
    var rest := data[FirstWriteLimit..];
    var rs := Refills(rest, headroom, 0);
    RefillsLoss(rest, headroom, 0);
    RefillsShape(rest, headroom, 0);
    var ps := Payloads(data, headroom);
    assert ps == [data[..FirstWriteLimit]] + rs;
    assert ps[|ps| - 1] == rs[|rs| - 1];
    AppendAssoc(data[..FirstWriteLimit], RefillsAccepted(rest, headroom, 0), rs[|rs| - 1]);
    assert data[..FirstWriteLimit] + rest == data;
  }

  /// When every poll reports more than 5000 free places, every write fits.
  lemma {:induction false} AmpleHeadroomFits(rest: seq<int>, headroom: nat -> nat, poll: nat)
    requires forall i :: headroom(i) > RefillSize
    ensures RefillsFit(rest, headroom, poll)
    decreases |rest|
  {
    if rest != [] {
      AmpleHeadroomFits(rest[Taken(rest, headroom(poll))..], headroom, poll + 1);
    }
  }

  /// Headroom a poll can report: the FIFO starts empty with `FifoDepth`
  /// places, and before poll k the writer has put in at most the first
  /// write and k refills of 5000, so at least the rest of the depth is free.
  ghost predicate PossibleHeadroom(headroom: nat -> nat)
  {
    forall k: nat :: headroom(k) >= FifoDepth - FirstWriteLimit - k * RefillSize
  }

  /// While the polls report more than 5000 free places, each refill writes
  /// 5000 samples and fits.
  lemma {:induction false} FullRefills(rest: seq<int>, headroom: nat -> nat, poll: nat, k: nat)
    requires k * RefillSize <= |rest|
    requires forall i :: poll <= i < poll + k ==> headroom(i) > RefillSize
    ensures RefillsAccepted(rest, headroom, poll)
      == rest[..k * RefillSize] + RefillsAccepted(rest[k * RefillSize..], headroom, poll + k)
    ensures RefillsFit(rest, headroom, poll) == RefillsFit(rest[k * RefillSize..], headroom, poll + k)
    decreases k
  {
    if k > 0 {
      assert rest != [];
      assert Taken(rest, headroom(poll)) == RefillSize;
      var more := rest[RefillSize..];
      FullRefills(more, headroom, poll + 1, k - 1);
      assert more[(k - 1) * RefillSize..] == rest[k * RefillSize..];
      assert rest[..RefillSize] + more[..(k - 1) * RefillSize] == rest[..k * RefillSize];
      AppendAssoc(rest[..RefillSize], more[..(k - 1) * RefillSize],
                  RefillsAccepted(rest[k * RefillSize..], headroom, poll + k));
    } else {
      assert rest[..0] + rest == rest;
    }
  }

  /// As written: after k full refills, a poll that reports at most 5000
  /// free places, fewer than what is left, makes the writer send everything
  /// left in one write, which times out. The FIFO keeps only the first
  /// write and the k refills, although it had room for more.
  lemma ShortPollLosesTail(data: seq<int>, headroom: nat -> nat, k: nat)
    requires |data| > FirstWriteLimit + k * RefillSize
    requires forall i :: 0 <= i < k ==> headroom(i) > RefillSize
    requires headroom(k) <= RefillSize && headroom(k) < |data| - FirstWriteLimit - k * RefillSize
    ensures !Fits(data, headroom)
    ensures Accepted(data, headroom) == data[..FirstWriteLimit + k * RefillSize]
  {
    var rest := data[FirstWriteLimit..];
    FullRefills(rest, headroom, 0, k);
    var left := rest[k * RefillSize..];
    assert Taken(left, headroom(k)) == |left|;
    assert RefillsAccepted(left, headroom, k) == [] && !RefillsFit(left, headroom, k);
    assert data[..FirstWriteLimit] + rest[..k * RefillSize] == data[..FirstWriteLimit + k * RefillSize];
  }

  /// A loss the model's own FIFO allows: 215001 samples, and polls that see
  /// the FIFO fill up as it would if it did not drain (190000 free places,
  /// then 5000 fewer after each refill). Poll 37 reports 5000, the last
  /// 20001 samples go in one write, and only 195000 samples reach the FIFO.
  lemma ReachableShortPoll()
    ensures var data := seq(215001, i => 0);
      var headroom := (k: nat) => if k <= 37 then 190000 - 5000 * k else 0;
      PossibleHeadroom(headroom) && !Fits(data, headroom) && |Accepted(data, headroom)| == 195000
  {
    var data := seq(215001, i => 0);
    var headroom := (k: nat) => if k <= 37 then 190000 - 5000 * k else 0;
    ShortPollLosesTail(data, headroom, 37);
  }

  /// The refills as evidently intended: never more than the poll reported
  /// free, and at most 5000 at a time. The FIFO drains while the writer
  /// polls, so each poll is taken to report at least one free place.
  function BoundedRefills(rest: seq<int>, headroom: nat -> nat, poll: nat): seq<seq<int>>
    requires forall i :: headroom(i) > 0
    decreases |rest|
  {
    if rest == [] then []
    else
      var n := Min(Min(RefillSize, headroom(poll)), |rest|);
      [[], rest[..n]] + BoundedRefills(rest[n..], headroom, poll + 1)
  }

  /// With the bounded refills every write fits in the headroom its poll
  /// reported, and never exceeds 5000 samples: the write after poll k is
  /// the (2k+1)-th payload.
  lemma {:induction false} BoundedRefillsFit(rest: seq<int>, headroom: nat -> nat, poll: nat)
    requires forall i :: headroom(i) > 0
    ensures var ps := BoundedRefills(rest, headroom, poll);
      |ps| % 2 == 0 && forall k :: 0 <= k < |ps| / 2 ==> |ps[2 * k + 1]| <= Min(RefillSize, headroom(poll + k))
    decreases |rest|
  {
    if rest != [] {
      var n := Min(Min(RefillSize, headroom(poll)), |rest|);
      var tail := BoundedRefills(rest[n..], headroom, poll + 1);
      BoundedRefillsFit(rest[n..], headroom, poll + 1);
      var ps := [[], rest[..n]] + tail;
      assert ps == BoundedRefills(rest, headroom, poll);
      forall k | 0 <= k < |ps| / 2
        ensures |ps[2 * k + 1]| <= Min(RefillSize, headroom(poll + k))
      {
        if k > 0 {
          assert ps[2 * k + 1] == tail[2 * (k - 1) + 1];
          assert poll + 1 + (k - 1) == poll + k;
        } else {
          assert ps[1] == rest[..n];
        }
      }
    }
  }

  /// Read back in order, the bounded refills are exactly the data.
  lemma {:induction false} BoundedRefillsFlatten(rest: seq<int>, headroom: nat -> nat, poll: nat)
    requires forall i :: headroom(i) > 0
    ensures Flatten(BoundedRefills(rest, headroom, poll)) == rest
    decreases |rest|
  {
    if rest != [] {
      var n := Min(Min(RefillSize, headroom(poll)), |rest|);
      var tail := BoundedRefills(rest[n..], headroom, poll + 1);
      BoundedRefillsFlatten(rest[n..], headroom, poll + 1);
      FlattenAppend([[], rest[..n]], tail);
      assert Flatten([[], rest[..n]]) == rest[..n] by {
        assert [[], rest[..n]][1..] == [rest[..n]];
        assert [rest[..n]][1..] == [];
      }
      assert rest[..n] + rest[n..] == rest;
    }
  }

  /// The FIFO accesses of a list of payloads.
  function Writes(b: Bank, ps: seq<seq<int>>): (acts: seq<Action>)
    ensures |acts| == |ps|
  {
    seq(|ps|, j requires 0 <= j < |ps| => FifoWrite(b, ps[j]))
  }

  lemma WritesAppend(b: Bank, xs: seq<seq<int>>, ys: seq<seq<int>>)
    ensures Writes(b, xs + ys) == Writes(b, xs) + Writes(b, ys)
  {
  }

  /// One refill: the polling write, then the chunk the reported headroom
  /// allows, which times out when it is larger than that headroom.
  method Refill(fpga: Fpga, b: Bank, rest: seq<int>, free: nat) returns (n: nat, r: Result<()>)
    requires fpga.Valid() && rest != []
    modifies fpga
    ensures fpga.Valid()
    ensures n == Taken(rest, free) && n <= |rest|
    ensures r == if n <= free then Ok(()) else Err(FifoTimeout)
    ensures fpga.trace == old(fpga.trace) + Writes(b, [[], rest[..n]])
    ensures r.Ok? ==> fpga.aoFifo == old(fpga.aoFifo).Set(b, old(fpga.aoFifo.Get(b)) + rest[..n])
    ensures r.Err? ==> fpga.aoFifo == old(fpga.aoFifo)
    ensures fpga.regs == old(fpga.regs) && fpga.aiFifo == old(fpga.aiFifo)
  {
    var polled := fpga.WriteFifo(b, [], free);
    AppendEmpty(old(fpga.aoFifo.Get(b)));
    n := if free > RefillSize then Min(RefillSize, |rest|) else |rest|;
    r := fpga.WriteFifo(b, rest[..n], free);
    assert Writes(b, [[], rest[..n]]) == [FifoWrite(b, []), FifoWrite(b, rest[..n])];
    AppendAssoc(old(fpga.trace), [FifoWrite(b, [])], [FifoWrite(b, rest[..n])]);
  }

  /// Moving the first n samples of what is left to what is written.
  lemma SplitRest(written: seq<int>, rest: seq<int>, n: nat, data: seq<int>)
    requires written + rest == data && n <= |rest|
    ensures (written + rest[..n]) + rest[n..] == data
  {
    assert rest[..n] + rest[n..] == rest;
    AppendAssoc(written, rest[..n], rest[n..]);
  }

  /// `__write`'s FIFO part: the whole payload at once when it is at most
  /// 10000 samples, else 10000 first and then refills until nothing is left
  /// or a refill times out. The result is the writer thread's outcome.
  method ChunkedWrite(fpga: Fpga, b: Bank, data: seq<int>, headroom: nat -> nat) returns (r: Result<()>)
    requires fpga.Valid()
    modifies fpga
    ensures fpga.Valid()
    ensures r == if Fits(data, headroom) then Ok(()) else Err(FifoTimeout)
    ensures fpga.trace == old(fpga.trace) + Writes(b, Payloads(data, headroom))
    ensures fpga.aoFifo == old(fpga.aoFifo).Set(b, old(fpga.aoFifo.Get(b)) + Accepted(data, headroom))
    ensures fpga.regs == old(fpga.regs) && fpga.aiFifo == old(fpga.aiFifo)
  {
    if |data| <= FirstWriteLimit {
      r := fpga.WriteFifo(b, data, FifoDepth);
      assert Writes(b, [data]) == [FifoWrite(b, data)];
      return;
    }
    ghost var fifo0 := fpga.aoFifo;
    ghost var trace0 := fpga.trace;
    var first := fpga.WriteFifo(b, data[..FirstWriteLimit], FifoDepth);
    var rest := data[FirstWriteLimit..];
    var poll: nat := 0;
    ghost var done: seq<seq<int>> := [data[..FirstWriteLimit]];
    ghost var written := data[..FirstWriteLimit];
    assert Writes(b, done) == [FifoWrite(b, data[..FirstWriteLimit])];
    while rest != []
      invariant fpga.Valid()
      invariant Payloads(data, headroom) == done + Refills(rest, headroom, poll)
      invariant fpga.trace == trace0 + Writes(b, done)
      invariant written + rest == data
      invariant Accepted(data, headroom) == written + RefillsAccepted(rest, headroom, poll)
      invariant Fits(data, headroom) == RefillsFit(rest, headroom, poll)
      invariant fpga.aoFifo == fifo0.Set(b, fifo0.Get(b) + written)
      invariant fpga.regs == old(fpga.regs) && fpga.aiFifo == old(fpga.aiFifo)
      decreases |rest|
    {
      var n, step := Refill(fpga, b, rest, headroom(poll));
      ghost var pair := [[], rest[..n]];
      AppendAssoc(done, pair, Refills(rest[n..], headroom, poll + 1));
      WritesAppend(b, done, pair);
      AppendAssoc(trace0, Writes(b, done), Writes(b, pair));
      if step.Err? {
        assert Refills(rest[n..], headroom, poll + 1) == [] by {
          assert rest[n..] == [];
        }
        AppendEmpty(done + pair);
        AppendEmpty(written);
        return step;
      }
      AppendAssoc(fifo0.Get(b), written, rest[..n]);
      AppendAssoc(written, rest[..n], RefillsAccepted(rest[n..], headroom, poll + 1));
      SplitRest(written, rest, n, data);
      done := done + pair;
      written := written + rest[..n];
      rest := rest[n..];
      poll := poll + 1;
    }
    AppendEmpty(done);
    AppendEmpty(written);
    r := Ok(());
  }

  /// The accesses of `__write_multiple_points_to_specific_bank`: DMA_ENA :=
  /// bitmask, DMA_CNTR := count, the FIFO writes, and DMA_ENA := 0 once the
  /// completion interrupt has arrived.
  function BankWriteActions(b: Bank, count: int, mask: nat, data: seq<int>, headroom: nat -> nat): seq<Action>
  {
    [Write(AODmaEnabled(b), Int(mask)), Write(AODmaCounter(b), Int(count))]
    + Writes(b, Payloads(data, headroom))
    + [Write(AODmaEnabled(b), Int(0))]
  }

  /// One bank's write. The result is the outcome of the writer thread;
  /// `threading.Thread` does not pass its exception to the caller, which
  /// goes on to wait for the interrupt and turn DMA off.
  method WriteBank(fpga: Fpga, b: Bank, count: int, mask: nat, data: seq<int>, headroom: nat -> nat)
    returns (r: Result<()>)
    requires fpga.Valid()
    modifies fpga
    ensures fpga.Valid()
    ensures r == if Fits(data, headroom) then Ok(()) else Err(FifoTimeout)
    ensures fpga.trace == old(fpga.trace) + BankWriteActions(b, count, mask, data, headroom)
    ensures fpga.aoFifo == old(fpga.aoFifo).Set(b, old(fpga.aoFifo.Get(b)) + Accepted(data, headroom))
    ensures fpga.aiFifo == old(fpga.aiFifo)
    ensures fpga.Read(AODmaEnabled(b)) == Int(0) && fpga.Read(AODmaCounter(b)) == Int(count)
  {
    fpga.WriteReg(AODmaEnabled(b), Int(mask));
    fpga.WriteReg(AODmaCounter(b), Int(count));
    // The counter handshake reads DMA_CNTR back at once.
    assert fpga.Read(AODmaCounter(b)) == Int(count);
    ghost var armed := fpga.trace;
    r := ChunkedWrite(fpga, b, data, headroom);
    fpga.WriteReg(AODmaEnabled(b), Int(0));
    assert fpga.Read(AODmaCounter(b)) == Int(count);
    ghost var arm := [Write(AODmaEnabled(b), Int(mask)), Write(AODmaCounter(b), Int(count))];
    assert armed == old(fpga.trace) + arm;
    AppendAssoc(old(fpga.trace), arm, Writes(b, Payloads(data, headroom)));
    AppendAssoc(old(fpga.trace), arm + Writes(b, Payloads(data, headroom)), [Write(AODmaEnabled(b), Int(0))]);
  }

  /// The accesses of a single-point write, channel by channel: DMA_ENA := 0,
  /// VAL := value, GO := True.
  function SinglePointWrites(channels: seq<OutputChannel>, value: int): seq<Action>
  {
    if channels == [] then []
    else
      var c := channels[|channels| - 1];
      SinglePointWrites(channels[..|channels| - 1], value) + PointWrites(c, value)
  }

  function PointWrites(c: OutputChannel, value: int): seq<Action>
  {
    [Write(AODmaEnabled(c.bank), Int(0)), Write(AOValue(c.bank, c.channel), Int(value)), Write(AOGo, Flag(true))]
  }

  /// A later channel's point write leaves an earlier channel's VAL and its
  /// bank's DMA_ENA as they were, unless it writes the same values there.
  lemma PointKeeps(before: map<Reg, Value>, after: map<Reg, Value>, c: OutputChannel, value: int, d: OutputChannel)
    requires after == before[AODmaEnabled(c.bank) := Int(0)][AOValue(c.bank, c.channel) := Int(value)][AOGo := Flag(true)]
    requires Holds(before, d, value)
    ensures Holds(after, d, value)
  {
  }

  /// Channel d's VAL register holds the value and its bank's DMA is off.
  ghost predicate Holds(regs: map<Reg, Value>, d: OutputChannel, value: int)
  {
    AOValue(d.bank, d.channel) in regs && regs[AOValue(d.bank, d.channel)] == Int(value)
    && AODmaEnabled(d.bank) in regs && regs[AODmaEnabled(d.bank)] == Int(0)
  }

  /// One channel of a single-point write.
  method WritePoint(fpga: Fpga, c: OutputChannel, value: int)
    requires fpga.Valid()
    modifies fpga
    ensures fpga.Valid()
    ensures fpga.trace == old(fpga.trace) + PointWrites(c, value)
    ensures fpga.regs == old(fpga.regs)[AODmaEnabled(c.bank) := Int(0)][AOValue(c.bank, c.channel) := Int(value)]
      [AOGo := Flag(true)]
    ensures fpga.aiFifo == old(fpga.aiFifo) && fpga.aoFifo == old(fpga.aoFifo)
  {
    fpga.WriteReg(AODmaEnabled(c.bank), Int(0));
    fpga.WriteReg(AOValue(c.bank, c.channel), Int(value));
    fpga.WriteReg(AOGo, Flag(true));
    assert fpga.trace == old(fpga.trace) + [Write(AODmaEnabled(c.bank), Int(0))]
      + [Write(AOValue(c.bank, c.channel), Int(value))] + [Write(AOGo, Flag(true))];
  }

  /// What one argument of `write` is: a number or a list of numbers.
  datatype WriteArg = Number(x: int) | Numbers(xs: seq<int>)

  /// The registry counts for one bank after an n-sample write registers it.
  function Registered(users: int, wasOpened: bool, used: bool): int
  {
    if used && !wasOpened then users + 1 else users
  }

  /// The registry count for one bank after `close`.
  function Released(users: int, wasOpened: bool): int
  {
    if wasOpened then users - 1 else users
  }

  /// A session that registers a bank and then closes leaves the count where
  /// it found it.
  lemma RegisterThenRelease(users: int, used: bool)
    ensures Released(Registered(users, false, used), used) == users
  {
  }

  class AnalogOutput {
    const channels: seq<OutputChannel>
    const fpga: Fpga
    /// The class-level `number_of_n_sample` and `dma` dictionaries of
    /// `AnalogOutput`, shared by every output session.
    const registry: Registry
    var isNSampleOpened: PerBank<bool>

    ghost predicate Valid()
      reads this, fpga
    {
      fpga.Valid()
      && (forall i :: 0 <= i < |channels| ==> channels[i].channel <= MaxOutputChannel)
      && (isNSampleOpened.a ==> UsesBank(channels, A))
      && (isNSampleOpened.b ==> UsesBank(channels, B))
    }

    constructor(cs: seq<OutputChannel>, fpga: Fpga, registry: Registry)
      requires fpga.Valid() && forall i :: 0 <= i < |cs| ==> cs[i].channel <= MaxOutputChannel
      ensures Valid()
      ensures channels == cs && this.fpga == fpga && this.registry == registry
      ensures isNSampleOpened == Both(false)
    {
      channels := cs;
      this.fpga := fpga;
      this.registry := registry;
      isNSampleOpened := Both(false);
    }

    /// `write(*args)`: one argument writes a single point, two write
    /// multiple points, any other count is a TypeError.
    method Write(args: seq<WriteArg>, headroom: PerBank<nat -> nat>) returns (r: Result<()>)
      requires Valid()
      modifies this, fpga, registry
      ensures Valid()
      ensures |args| != 1 && |args| != 2 ==> r == Err(WrongArity) && unchanged(this, fpga, registry)
      ensures |args| == 1 ==>
        if args[0].Numbers? then r == Err(InvalidParameter) && unchanged(this, fpga, registry)
        else r == Ok(()) && fpga.trace == old(fpga.trace) + SinglePointWrites(channels, args[0].x)
      ensures |args| == 1 && args[0].Number? ==>
        unchanged(this, registry)
        && fpga.aiFifo == old(fpga.aiFifo) && fpga.aoFifo == old(fpga.aoFifo)
        && forall i :: 0 <= i < |channels| ==> Holds(fpga.regs, channels[i], args[0].x)
      ensures |args| == 2 ==>
        (r == Err(InvalidParameter) <==>
          !(args[0].Numbers? && args[1].Number? && OutputMinimum <= args[1].x <= OutputMaximum))
      ensures |args| == 2 && r.Err? ==> unchanged(this, fpga, registry)
      ensures |args| == 2 && r.Ok? ==> args[0].Numbers? && args[1].Number?
      ensures |args| == 2 && r.Ok? ==>
        (forall b :: isNSampleOpened.Get(b) == (old(isNSampleOpened.Get(b)) || UsesBank(channels, b)))
        && (forall b :: (registry.nSampleUsers.Get(b) ==
              Registered(old(registry.nSampleUsers.Get(b)), old(isNSampleOpened.Get(b)), UsesBank(channels, b))))
        && (forall b :: registry.fifoOpen.Get(b) == (old(registry.fifoOpen.Get(b)) || UsesBank(channels, b)))
        && registry.continuousStarted == old(registry.continuousStarted)
      ensures |args| == 2 && r.Ok? ==>
        var count := RateToTicks(args[1].x, OutputMinimum, OutputMaximum).value.count;
        fpga.trace == old(fpga.trace)
          + (if isNSampleOpened.a then BankWriteActions(A, count, BankBitmask(channels, A), args[0].xs, headroom.a) else [])
          + (if isNSampleOpened.b then BankWriteActions(B, count, BankBitmask(channels, B), args[0].xs, headroom.b) else [])
      ensures |args| == 2 && r.Ok? ==> forall b :: (fpga.aoFifo.Get(b) ==
        old(fpga.aoFifo.Get(b)) + (if isNSampleOpened.Get(b) then Accepted(args[0].xs, headroom.Get(b)) else []))
    {
      if |args| == 1 {
        if args[0].Numbers? {
          return Err(InvalidParameter);
        }
        WriteSinglePoint(args[0].x);
        r := Ok(());
      } else if |args| == 2 {
        if !(args[0].Numbers? && args[1].Number?) {
          return Err(InvalidParameter);
        }
        r := WriteMultiplePoints(args[0].xs, args[1].x, headroom);
      } else {
        r := Err(WrongArity);
      }
    }

    /// `__write_single_point`: afterwards every channel's VAL register holds
    /// the value and DMA is off on every bank the session uses.
    method WriteSinglePoint(value: int)
      requires Valid()
      modifies fpga
      ensures Valid()
      ensures fpga.trace == old(fpga.trace) + SinglePointWrites(channels, value)
      ensures fpga.aiFifo == old(fpga.aiFifo) && fpga.aoFifo == old(fpga.aoFifo)
      ensures forall i :: 0 <= i < |channels| ==> Holds(fpga.regs, channels[i], value)
    {
      var i := 0;
      while i < |channels|
        invariant 0 <= i <= |channels|
        invariant fpga.Valid()
        invariant fpga.trace == old(fpga.trace) + SinglePointWrites(channels[..i], value)
        invariant fpga.aiFifo == old(fpga.aiFifo) && fpga.aoFifo == old(fpga.aoFifo)
        invariant forall j :: 0 <= j < i ==> Holds(fpga.regs, channels[j], value)
      {
        var c := channels[i];
        ghost var regs0 := fpga.regs;
        WritePoint(fpga, c, value);
        forall j | 0 <= j < i + 1
          ensures Holds(fpga.regs, channels[j], value)
        {
          if j < i {
            PointKeeps(regs0, fpga.regs, c, value, channels[j]);
          }
        }
        assert channels[..i + 1][..i] == channels[..i];
        AppendAssoc(old(fpga.trace), SinglePointWrites(channels[..i], value), PointWrites(c, value));
        i := i + 1;
      }
      assert channels[..i] == channels;
    }

    /// The bookkeeping loop of `__write_multiple_points`: each channel's bank
    /// is marked opened, counted once in `number_of_n_sample`, and gets its
    /// FIFO handle.
    method RegisterBanks()
      requires Valid()
      modifies this, registry
      ensures Valid()
      ensures forall b :: isNSampleOpened.Get(b) == (old(isNSampleOpened.Get(b)) || UsesBank(channels, b))
      ensures forall b :: (registry.nSampleUsers.Get(b) ==
        Registered(old(registry.nSampleUsers.Get(b)), old(isNSampleOpened.Get(b)), UsesBank(channels, b)))
      ensures forall b :: registry.fifoOpen.Get(b) == (old(registry.fifoOpen.Get(b)) || UsesBank(channels, b))
      ensures registry.continuousStarted == old(registry.continuousStarted)
    {
      var i := 0;
      while i < |channels|
        invariant 0 <= i <= |channels|
        invariant Valid()
        invariant Registration(A, old(isNSampleOpened.a), old(registry.nSampleUsers.a), old(registry.fifoOpen.a), channels[..i])
        invariant Registration(B, old(isNSampleOpened.b), old(registry.nSampleUsers.b), old(registry.fifoOpen.b), channels[..i])
        invariant registry.continuousStarted == old(registry.continuousStarted)
      {
        var bank := channels[i].bank;
        UsesBankStep(channels, i);
        RegisterBank(bank);
        i := i + 1;
      }
      assert channels[..i] == channels;
    }

    /// Bank b's bookkeeping once the channels `done` are registered, from the
    /// given starting values.
    ghost predicate Registration(b: Bank, opened0: bool, users0: int, fifo0: bool, done: seq<OutputChannel>)
      reads this, registry
    {
      isNSampleOpened.Get(b) == (opened0 || UsesBank(done, b))
      && registry.nSampleUsers.Get(b) == Registered(users0, opened0, UsesBank(done, b))
      && registry.fifoOpen.Get(b) == (fifo0 || UsesBank(done, b))
    }

    /// One channel's turn of the bookkeeping loop, for its bank `b`.
    method RegisterBank(b: Bank)
      requires Valid() && UsesBank(channels, b)
      modifies this, registry
      ensures Valid()
      ensures isNSampleOpened.Get(b) && registry.fifoOpen.Get(b)
      ensures registry.nSampleUsers.Get(b) ==
        Registered(old(registry.nSampleUsers.Get(b)), old(isNSampleOpened.Get(b)), true)
      ensures isNSampleOpened.Get(Opposite(b)) == old(isNSampleOpened.Get(Opposite(b)))
      ensures registry.nSampleUsers.Get(Opposite(b)) == old(registry.nSampleUsers.Get(Opposite(b)))
      ensures registry.fifoOpen.Get(Opposite(b)) == old(registry.fifoOpen.Get(Opposite(b)))
      ensures registry.continuousStarted == old(registry.continuousStarted)
    {
      if !isNSampleOpened.Get(b) {
        isNSampleOpened := isNSampleOpened.Set(b, true);
        registry.nSampleUsers := registry.nSampleUsers.Set(b, registry.nSampleUsers.Get(b) + 1);
      }
      if !registry.fifoOpen.Get(b) {
        registry.fifoOpen := registry.fifoOpen.Set(b, true);
      }
    }

    /// `__write_multiple_points`: the rate check comes before any change;
    /// then registration, the bitmask, the tick count, and a write to each
    /// opened bank, A first.
    method WriteMultiplePoints(values: seq<int>, rate: int, headroom: PerBank<nat -> nat>) returns (r: Result<()>)
      requires Valid()
      modifies this, fpga, registry
      ensures Valid()
      ensures r == if OutputMinimum <= rate <= OutputMaximum then Ok(()) else Err(InvalidParameter)
      ensures r.Err? ==> unchanged(this, fpga, registry)
      ensures r.Ok? ==> forall b :: isNSampleOpened.Get(b) == (old(isNSampleOpened.Get(b)) || UsesBank(channels, b))
      ensures r.Ok? ==> forall b :: (registry.nSampleUsers.Get(b) ==
        Registered(old(registry.nSampleUsers.Get(b)), old(isNSampleOpened.Get(b)), UsesBank(channels, b)))
      ensures r.Ok? ==> forall b :: registry.fifoOpen.Get(b) == (old(registry.fifoOpen.Get(b)) || UsesBank(channels, b))
      ensures registry.continuousStarted == old(registry.continuousStarted)
      ensures r.Ok? ==>
        var count := RateToTicks(rate, OutputMinimum, OutputMaximum).value.count;
        fpga.trace == old(fpga.trace)
          + (if isNSampleOpened.a then BankWriteActions(A, count, BankBitmask(channels, A), values, headroom.a) else [])
          + (if isNSampleOpened.b then BankWriteActions(B, count, BankBitmask(channels, B), values, headroom.b) else [])
      ensures r.Ok? ==> forall b :: (fpga.aoFifo.Get(b) ==
        old(fpga.aoFifo.Get(b)) + (if isNSampleOpened.Get(b) then Accepted(values, headroom.Get(b)) else []))
    {
      if !(OutputMinimum <= rate <= OutputMaximum) {
        return Err(InvalidParameter);
      }
      RegisterBanks();
      var masks := CalculateBitmask(channels);
      OutputCountBounds(rate);
      var ticks := RateToTicks(rate, OutputMinimum, OutputMaximum);
      var count := ticks.value.count;
      r := WriteOpenedBanks(count, masks, values, headroom);
    }

    /// Each opened bank's write, A first. A writer thread that times out
    /// ends without raising in the caller, so the call itself succeeds.
    method WriteOpenedBanks(count: int, masks: PerBank<nat>, values: seq<int>, headroom: PerBank<nat -> nat>)
      returns (r: Result<()>)
      requires Valid()
      modifies fpga
      ensures Valid() && r == Ok(())
      ensures fpga.trace == old(fpga.trace)
        + (if isNSampleOpened.a then BankWriteActions(A, count, masks.a, values, headroom.a) else [])
        + (if isNSampleOpened.b then BankWriteActions(B, count, masks.b, values, headroom.b) else [])
      ensures forall b :: (fpga.aoFifo.Get(b) ==
        old(fpga.aoFifo.Get(b)) + (if isNSampleOpened.Get(b) then Accepted(values, headroom.Get(b)) else []))
    {
      ghost var trace0 := fpga.trace;
      ghost var fifo0 := fpga.aoFifo;
      ghost var actsA: seq<Action> := [];
      if isNSampleOpened.a {
        var writerA := WriteBank(fpga, A, count, masks.a, values, headroom.a);
        actsA := BankWriteActions(A, count, masks.a, values, headroom.a);
      } else {
        AppendEmpty(trace0);
        AppendEmpty(fifo0.a);
      }
      ghost var afterA := fpga.trace;
      ghost var actsB: seq<Action> := [];
      if isNSampleOpened.b {
        var writerB := WriteBank(fpga, B, count, masks.b, values, headroom.b);
        actsB := BankWriteActions(B, count, masks.b, values, headroom.b);
      } else {
        AppendEmpty(afterA);
        AppendEmpty(fifo0.b);
      }
      r := Ok(());
    }

    /// `close`: each bank this session opened for n-sample output gives
    /// back its count, and a bank whose count reaches 0 drops its FIFO
    /// handle, whoever opened it.
    method Close()
      requires Valid()
      modifies registry
      ensures forall b :: (registry.nSampleUsers.Get(b) ==
        Released(old(registry.nSampleUsers.Get(b)), isNSampleOpened.Get(b)))
      ensures forall b :: (registry.fifoOpen.Get(b) ==
        (old(registry.fifoOpen.Get(b)) && registry.nSampleUsers.Get(b) != 0))
      ensures registry.continuousStarted == old(registry.continuousStarted)
    {
      ReleaseBank(A);
      ReleaseBank(B);
    }

    method ReleaseBank(b: Bank)
      modifies registry
      ensures registry.nSampleUsers.Get(b) == Released(old(registry.nSampleUsers.Get(b)), isNSampleOpened.Get(b))
      ensures registry.fifoOpen.Get(b) == (old(registry.fifoOpen.Get(b)) && registry.nSampleUsers.Get(b) != 0)
      ensures registry.nSampleUsers.Get(Opposite(b)) == old(registry.nSampleUsers.Get(Opposite(b)))
      ensures registry.fifoOpen.Get(Opposite(b)) == old(registry.fifoOpen.Get(Opposite(b)))
      ensures registry.continuousStarted == old(registry.continuousStarted)
    {
      if isNSampleOpened.Get(b) {
        registry.nSampleUsers := registry.nSampleUsers.Set(b, registry.nSampleUsers.Get(b) - 1);
      }
      if registry.nSampleUsers.Get(b) == 0 {
        registry.fifoOpen := registry.fifoOpen.Set(b, false);
      }
    }
  }

  lemma UsesBankStep(channels: seq<OutputChannel>, i: nat)
    requires i < |channels|
    ensures forall b :: UsesBank(channels[..i + 1], b) <==> UsesBank(channels[..i], b) || channels[i].bank == b
  {
    assert channels[..i + 1] == channels[..i] + [channels[i]];
    forall b | UsesBank(channels[..i + 1], b) && channels[i].bank != b
      ensures UsesBank(channels[..i], b)
    {
      var k :| 0 <= k < i + 1 && channels[..i + 1][k].bank == b;
      assert k < i;
    }
    forall b | UsesBank(channels[..i], b)
      ensures UsesBank(channels[..i + 1], b)
    {
      var k :| 0 <= k < i && channels[..i][k].bank == b;
      assert channels[..i + 1][k].bank == b;
    }
    assert channels[..i + 1][i] == channels[i];
  }

  /// `AnalogOutput(*configuration)`: validates every dictionary before any
  /// session exists.
  method Open(ds: seq<OutputDict>, fpga: Fpga, registry: Registry) returns (r: Result<AnalogOutput>)
    requires fpga.Valid()
    ensures r.Ok? <==> OutputChannels(ds).Ok?
    ensures r.Err? ==> r.error == OutputChannels(ds).error
    ensures r.Ok? ==>
      fresh(r.value) && r.value.Valid() && r.value.channels == OutputChannels(ds).value
      && r.value.fpga == fpga && r.value.registry == registry && r.value.isNSampleOpened == Both(false)
  {
    var cl := OutputChannels(ds);
    if cl.Err? {
      return Err(cl.error);
    }
    var session := new AnalogOutput(cl.value, fpga, registry);
    r := Ok(session);
  }
}
