/**
 The colour browser's editing state as a value, the three button transitions
 on it, and what sequences of button presses do.
 */
module Controller {
  import opened Display

  /** The three physical buttons the app subscribes to. */
  datatype Button = Up | Down | Select

  /** rgb_values and channel_index. */
  datatype State = State(rgb: seq<UInt8>, channelIndex: UInt8)

  /** Three channels and an index naming one of them: what the handlers need to index the array. */
  predicate Addressable(s: State) {
    |s.rgb| == 3 && s.channelIndex <= Blue
  }

  /** The invariant: in addition, every channel holds a two-bit value. */
  predicate Valid(s: State) {
    Addressable(s) && forall j :: 0 <= j < 3 ==> s.rgb[j] <= ChannelMax
  }

  /** Static storage starts zeroed and init sets every channel to 0, with Red selected. */
  const Initial: State := State([0, 0, 0], Red)

  /** The up button: the selected channel goes up by one unless it is already at ChannelMax. */
  function Increment(s: State): (t: State)
    requires Addressable(s)
    ensures Addressable(t) && t.channelIndex == s.channelIndex
    ensures forall j :: 0 <= j < 3 && j != s.channelIndex ==> t.rgb[j] == s.rgb[j]
    ensures s.rgb[s.channelIndex] < ChannelMax ==> t.rgb[s.channelIndex] == s.rgb[s.channelIndex] + 1
    ensures s.rgb[s.channelIndex] >= ChannelMax ==> t == s
    ensures Valid(s) ==> Valid(t)
  {
    var i := s.channelIndex;
    if s.rgb[i] < ChannelMax then s.(rgb := s.rgb[i := s.rgb[i] + 1]) else s
  }

  /** The down button: the selected channel goes down by one unless it is already 0. */
  function Decrement(s: State): (t: State)
    requires Addressable(s)
    ensures Addressable(t) && t.channelIndex == s.channelIndex
    ensures forall j :: 0 <= j < 3 && j != s.channelIndex ==> t.rgb[j] == s.rgb[j]
    ensures s.rgb[s.channelIndex] > 0 ==> t.rgb[s.channelIndex] == s.rgb[s.channelIndex] - 1
    ensures s.rgb[s.channelIndex] == 0 ==> t == s
    ensures Valid(s) ==> Valid(t)
  {
    var i := s.channelIndex;
    if s.rgb[i] > 0 then s.(rgb := s.rgb[i := s.rgb[i] - 1]) else s
  }

  /**
   The index after the select button: the uint8_t increment, which wraps at
   256, followed by the reset to Red when it reaches ChannelMax.
   */
  function NextIndex(i: UInt8): (j: UInt8)
    ensures i <= Blue ==> j == (i + 1) % 3
    ensures j != ChannelMax
  {
    var k := (i + 1) % 0x100;
    if k == ChannelMax then Red else k
  }

  /** The select button: the next channel, R to G to B and back to R; the channel values stay. */
  function AdvanceSelection(s: State): (t: State)
    ensures t.rgb == s.rgb
    ensures s.channelIndex <= Blue ==> t.channelIndex == (s.channelIndex + 1) % 3
    ensures Addressable(s) ==> Addressable(t)
    ensures Valid(s) ==> Valid(t)
  {
    s.(channelIndex := NextIndex(s.channelIndex))
  }

  /** Three presses of select come back to the channel they started from, through both others. */
  lemma AdvanceSelectionCycles(s: State)
    requires s.channelIndex <= Blue
    ensures AdvanceSelection(AdvanceSelection(AdvanceSelection(s))) == s
    ensures AdvanceSelection(s).channelIndex != s.channelIndex
    ensures AdvanceSelection(AdvanceSelection(s)).channelIndex !in {s.channelIndex, AdvanceSelection(s).channelIndex}
  {
  }

  /** One button press. */
  function Step(s: State, button: Button): (t: State)
    requires Addressable(s)
    ensures Addressable(t)
    ensures Valid(s) ==> Valid(t)
  {
    match button
    case Up => Increment(s)
    case Down => Decrement(s)
    case Select => AdvanceSelection(s)
  }

  /** A sequence of button presses, in order. */
  function Run(s: State, buttons: seq<Button>): (t: State)
    requires Addressable(s)
    ensures Addressable(t)
    ensures Valid(s) ==> Valid(t)
    decreases |buttons|
  {
    if buttons == [] then s else Run(Step(s, buttons[0]), buttons[1..])
  }

  /** `n` presses of the same button. */
  function Repeat(button: Button, n: nat): (buttons: seq<Button>)
    ensures |buttons| == n && forall k :: 0 <= k < n ==> buttons[k] == button
  {
    seq(n, _ => button)
  }

  /** Pressing up `n` times raises the selected channel by `n` but never beyond ChannelMax. */
  lemma {:induction false} RepeatedIncrement(s: State, n: nat)
    requires Valid(s)
    ensures var i := s.channelIndex;
      var v := if s.rgb[i] + n < ChannelMax then s.rgb[i] + n else ChannelMax;
      Run(s, Repeat(Up, n)) == s.(rgb := s.rgb[i := v])
    decreases n
  {
    var i := s.channelIndex;
    if n == 0 {
      assert s.rgb[i := s.rgb[i]] == s.rgb;
    } else {
      assert Repeat(Up, n)[1..] == Repeat(Up, n - 1);
      var t := Increment(s);
      RepeatedIncrement(t, n - 1);
      if s.rgb[i] >= ChannelMax {
        assert s.rgb[i := ChannelMax] == s.rgb;
      }
    }
  }

  /** Pressing down `n` times lowers the selected channel by `n` but never below 0. */
  lemma {:induction false} RepeatedDecrement(s: State, n: nat)
    requires Valid(s)
    ensures var i := s.channelIndex;
      var v := if s.rgb[i] > n then s.rgb[i] - n else 0;
      Run(s, Repeat(Down, n)) == s.(rgb := s.rgb[i := v])
    decreases n
  {
    var i := s.channelIndex;
    if n == 0 {
      assert s.rgb[i := s.rgb[i]] == s.rgb;
    } else {
      assert Repeat(Down, n)[1..] == Repeat(Down, n - 1);
      var t := Decrement(s);
      RepeatedDecrement(t, n - 1);
      if s.rgb[i] == 0 {
        assert s.rgb[i := 0] == s.rgb;
      }
    }
  }

  /**
   From the start: up twice, select, up three times. Red ends at 2, Green is
   clamped at 3 rather than 4, and Green is selected.
   */
  lemma UpSelectUpFromInitial()
    ensures Run(Initial, [Up, Up, Select, Up, Up, Up]) == State([2, 3, 0], Green)
  {
    var presses: seq<Button> := [Up, Up, Select, Up, Up, Up];
    calc {
      Run(Initial, presses);
      { assert [0, 0, 0][0 := 1] == [1, 0, 0]; }
      Run(State([1, 0, 0], Red), presses[1..]);
      { assert presses[1..][1..] == presses[2..] && [1, 0, 0][0 := 2] == [2, 0, 0]; }
      Run(State([2, 0, 0], Red), presses[2..]);
      { assert presses[2..][1..] == presses[3..]; }
      Run(State([2, 0, 0], Green), presses[3..]);
      { assert presses[3..][1..] == presses[4..] && [2, 0, 0][1 := 1] == [2, 1, 0]; }
      Run(State([2, 1, 0], Green), presses[4..]);
      { assert presses[4..][1..] == presses[5..] && [2, 1, 0][1 := 2] == [2, 2, 0]; }
      Run(State([2, 2, 0], Green), presses[5..]);
      { assert presses[5..][1..] == presses[6..] && [2, 2, 0][1 := 3] == [2, 3, 0]; }
      Run(State([2, 3, 0], Green), presses[6..]);
    }
  }

  /** The label shown at the end of that sequence. */
  lemma UpSelectUpLabel()
    ensures Label(2, 3, 0) == "0b11101100"
  {
    assert Label(2, 3, 0) == LabelPrefix + "10" + "11" + "00";
    assert LabelPrefix + "10" == "0b1110";
    assert "0b1110" + "11" == "0b111011";
  }
}
