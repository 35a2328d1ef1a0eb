/// `DigitalInputOutput`: a session on some of a bank's twenty DIO lines.
/// Opening hands each line back to plain DIO in the bank's SYS.SELECT
/// register; reading tests one bit of the input register per channel;
/// writing makes the written channels outputs and drives them all to one
/// level.
module Dio {
  import opened Common
  import opened Bits
  import opened SysSelect

  /// DIO0 .. DIO19.
  predicate ValidChannel(c: int)
  {
    0 <= c <= 19
  }

  predicate AllValid(cs: seq<int>)
  {
    forall i :: 0 <= i < |cs| ==> ValidChannel(cs[i])
  }

  /// The position of the first channel outside DIO0 .. DIO19, or `|cs|`.
  function FirstInvalid(cs: seq<int>): (k: nat)
    ensures k <= |cs|
    ensures forall i :: 0 <= i < k ==> ValidChannel(cs[i])
    ensures k < |cs| ==> !ValidChannel(cs[k])
  {
    if cs == [] || !ValidChannel(cs[0]) then 0 else 1 + FirstInvalid(cs[1..])
  }

  /// SYS.SELECT after clearing the field of each channel in turn.
  function Selects(v: nat, cs: seq<int>): nat
    requires AllValid(cs)
  {
    if cs == [] then v else DioSelect(Selects(v, cs[..|cs| - 1]), cs[|cs| - 1])
  }

  /// Each DIO line has a two-bit field in SYS.SELECT: opening the channels
  /// clears the fields of exactly those lines.
  lemma {:induction false} SelectsBit(v: nat, cs: seq<int>, j: nat)
    requires AllValid(cs)
    ensures Bit(Selects(v, cs), j) <==> Bit(v, j) && j / 2 !in cs
  {
    if cs != [] {
      var init := cs[..|cs| - 1];
      SelectsBit(v, init, j);
      ClearFieldsBit(Selects(v, init), cs[|cs| - 1], 1, j);
      assert cs == init + [cs[|cs| - 1]];
    }
  }

  /// The OR of `1 << c` over the channels.
  function Mask(cs: seq<int>): nat
    requires AllValid(cs)
  {
    if cs == [] then 0 else Or(Mask(cs[..|cs| - 1]), Shl(1, cs[|cs| - 1]))
  }

  /// Bit j of the mask is set exactly for the listed channels.
  lemma {:induction false} MaskBit(cs: seq<int>, j: nat)
    requires AllValid(cs)
    ensures Bit(Mask(cs), j) <==> j in cs
  {
    if cs == [] {
      ZeroBits(j);
    } else {
      var init := cs[..|cs| - 1];
      MaskBit(init, j);
      OrBit(Mask(init), Shl(1, cs[|cs| - 1]), j);
      PowBit(cs[|cs| - 1], j);
      assert cs == init + [cs[|cs| - 1]];
    }
  }

  /// One more opened channel in `write`'s loop.
  lemma WriteStep(ts: seq<int>, i: nat, channels: seq<int>)
    requires i < |ts| && AllValid(ts[..i]) && AllValid(channels) && ts[i] in channels
    ensures AllValid(ts[..i + 1])
    ensures Mask(ts[..i + 1]) == Or(Mask(ts[..i]), Shl(1, ts[i]))
    ensures Or(0, Shl(0, ts[i])) == 0
  {
    assert ts[..i + 1][..i] == ts[..i];
  }

  /// The level `read` reports for channel `c`: bit `c` of the input word.
  function Level(input: nat, c: nat): int
  {
    if Bit(input, c) then 1 else 0
  }

  /// The registers of one bank's DIO lines and the channels the session
  /// opened.
  class DioSession {
    /// SYS.SELECT<bank>: two bits per line choose its function.
    var select: nat
    /// DIO.<bank>_19:0.DIR: a set bit makes the line an output.
    var direction: nat
    /// DIO.<bank>_19:0.OUT
    var output: nat
    /// DIO.<bank>_19:0.IN, driven by the pins.
    const input: nat
    /// `self.channels`
    var channels: seq<int>

    ghost predicate Valid()
      reads this
    {
      AllValid(channels)
    }

    /// The registers as they are before the session opens.
    constructor(select0: nat, direction0: nat, output0: nat, input0: nat)
      ensures Valid()
      ensures select == select0 && direction == direction0 && output == output0 && input == input0
      ensures channels == []
    {
      select := select0;
      direction := direction0;
      output := output0;
      input := input0;
      channels := [];
    }

    /// `__init__`: an empty channel list is refused before any write; then
    /// DIR is zeroed and each channel's field is cleared in turn, so a
    /// channel outside DIO0 .. DIO19 stops the loop with the earlier fields
    /// already cleared.
    method Open(cs: seq<int>) returns (err: Option<Error>)
      requires Valid()
      modifies this
      ensures Valid()
      ensures err.None? <==> cs != [] && AllValid(cs)
      ensures cs == [] ==> err == Some(InvalidParameter) && select == old(select) && direction == old(direction)
      ensures cs != [] ==> direction == 0
      ensures cs != [] && !AllValid(cs) ==>
        err == Some(InvalidChannel) && select == Selects(old(select), cs[..FirstInvalid(cs)])
      ensures err.None? ==> select == Selects(old(select), cs) && channels == cs
      ensures err.Some? ==> channels == old(channels)
      ensures output == old(output)
    {
      if cs == [] {
        return Some(InvalidParameter);
      }
      direction := 0;
      var i := 0;
      while i < |cs|
        invariant 0 <= i <= |cs| && AllValid(cs[..i])
        invariant select == Selects(old(select), cs[..i])
        invariant direction == 0 && output == old(output) && channels == old(channels)
      {
        var c := cs[i];
        if !ValidChannel(c) {
          return Some(InvalidChannel);
        }
        assert cs[..i + 1][..i] == cs[..i];
        select := ClearSysSelect(select, c, 1);
        i := i + 1;
      }
      assert cs[..i] == cs;
      channels := cs;
      return None;
    }

    /// `read`: one level per requested channel, in request order; every
    /// channel must be one the session opened.
    method Read(toRead: seq<int>) returns (r: Result<seq<int>>)
      requires Valid()
      ensures r.Ok? <==> forall i :: 0 <= i < |toRead| ==> toRead[i] in channels
      ensures r.Err? ==> r.error == ChannelNotOpened
      ensures r.Ok? ==> (|r.value| == |toRead| &&
        forall i :: 0 <= i < |toRead| ==> toRead[i] >= 0 && r.value[i] == Level(input, toRead[i]))
    {
      var value := input;
      var levels: seq<int> := [];
      var i := 0;
      while i < |toRead|
        invariant 0 <= i <= |toRead| && |levels| == i
        invariant forall k :: 0 <= k < i ==> toRead[k] in channels
        invariant forall k :: 0 <= k < i ==> toRead[k] >= 0 && levels[k] == Level(input, toRead[k])
      {
        var c := toRead[i];
        if c !in channels {
          return Err(ChannelNotOpened);
        }
        var masked := And(value, Shl(1, c));
        AndPow(value, c);
        levels := levels + [if 0 < masked then 1 else 0];
        i := i + 1;
      }
      return Ok(levels);
    }

    /// `write`: every channel must be one the session opened, which is
    /// checked before anything is written; then DIR gets the bits of the
    /// channels written and OUT gets them too when the level is high.
    method Write(value: bool, toWrite: seq<int>) returns (err: Option<Error>)
      requires Valid()
      modifies this
      ensures Valid()
      ensures err.None? <==> forall i :: 0 <= i < |toWrite| ==> toWrite[i] in channels
      ensures err.Some? ==> err.value == ChannelNotOpened && direction == old(direction) && output == old(output)
      ensures err.None? ==> AllValid(toWrite) && direction == Mask(toWrite) && output == (if value then Mask(toWrite) else 0)
      ensures select == old(select) && channels == old(channels)
    {
      var directionValue := 0;
      var writeValue := 0;
      var level := if value then 1 else 0;
      var i := 0;
      while i < |toWrite|
        invariant 0 <= i <= |toWrite| && AllValid(toWrite[..i])
        invariant forall k :: 0 <= k < i ==> toWrite[k] in channels
        invariant directionValue == Mask(toWrite[..i])
        invariant writeValue == (if value then Mask(toWrite[..i]) else 0)
        invariant unchanged(this)
      {
        var c := toWrite[i];
        if c !in channels {
          return Some(ChannelNotOpened);
        }
        WriteStep(toWrite, i, channels);
        directionValue := Or(directionValue, Shl(1, c));
        writeValue := Or(writeValue, Shl(level, c));
        i := i + 1;
      }
      assert toWrite[..i] == toWrite;
      direction := directionValue;
      output := writeValue;
      return None;
    }
  }
}
