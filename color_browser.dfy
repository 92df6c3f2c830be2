/**
 The app's global state as an object: the static channel array, the
 selected-channel index, the static text buffer and the frame of the
 selection layer, with the three click handlers, update_display, the colour
 the canvas is filled with, and the initialisation done by init.
 */
module App {
  import opened Display
  import opened Controller

  class ColorBrowser {
    /** rgb_values: one entry per channel, indexed by Red, Green and Blue. */
    var rgbValues: array<UInt8>
    /** channel_index: the channel the up and down buttons change. */
    var channelIndex: UInt8
    /** color_text_buffer: the text the output layer shows. */
    var colorTextBuffer: array<char>
    /** The frame last given to the selection layer. */
    var selectionFrame: GRect

    /** Both static arrays have their declared sizes. */
    ghost predicate Allocated()
      reads this
    {
      rgbValues.Length == 3 && colorTextBuffer.Length == TextBufferSize
    }

    /** The editing state as a value. */
    ghost function Current(): State
      reads this, rgbValues
    {
      State(rgbValues[..], channelIndex)
    }

    /** The object invariant: every channel is a two-bit value and the index names a channel. */
    ghost predicate Valid()
      reads this, rgbValues
    {
      Allocated() && Controller.Valid(Current())
    }

    /**
     The display is not stale: the buffer holds the label of the current
     channels and its terminator, and the selection box sits under the
     selected channel (an index that is not a channel leaves it where it was).
     */
    ghost predicate Displayed()
      reads this, rgbValues, colorTextBuffer
      requires Allocated()
    {
      && colorTextBuffer[..] == Label(rgbValues[Red], rgbValues[Green], rgbValues[Blue]) + ['\0']
      && (SelectionFrame(channelIndex).Some? ==> selectionFrame == SelectionFrame(channelIndex).value)
    }

    /**
     Static storage starts zeroed (channel_index among it, so Red is
     selected), the selection layer is created with an empty frame, and init
     sets the three channels to 0 and updates the display.
     */
    constructor ()
      ensures Allocated() && Valid() && Displayed()
      ensures Current() == Initial
      ensures selectionFrame == GRect(62, 20, 18, 4)
      ensures fresh(rgbValues) && fresh(colorTextBuffer)
    {
      rgbValues := new UInt8[3](_ => 0);
      colorTextBuffer := new char[TextBufferSize](_ => '\0');
      channelIndex := Red;
      selectionFrame := GRect(0, 0, 0, 0);
      new;
      rgbValues[Red] := 0;
      rgbValues[Green] := 0;
      rgbValues[Blue] := 0;
      UpdateDisplay();
    }

    /**
     update_display: formats the label into the text buffer and moves the
     selection box to the selected channel. The channels and the index stay.
     */
    method UpdateDisplay()
      requires Allocated()
      modifies this`selectionFrame, colorTextBuffer
      ensures Allocated() && Displayed()
      ensures Current() == old(Current())
      ensures SelectionFrame(channelIndex).None? ==> selectionFrame == old(selectionFrame)
    {
      var text := Label(rgbValues[Red], rgbValues[Green], rgbValues[Blue]);
      var bytes := Terminated(text, colorTextBuffer.Length);
      forall i | 0 <= i < |bytes| {
        colorTextBuffer[i] := bytes[i];
      }
      match SelectionFrame(channelIndex)
      case Some(frame) => selectionFrame := frame;
      case None =>
    }

    /** up_click_handler: Increment on the selected channel, then update_display. */
    method UpClickHandler()
      requires Allocated() && channelIndex <= Blue
      modifies this`selectionFrame, rgbValues, colorTextBuffer
      ensures Allocated() && Displayed()
      ensures Current() == Increment(old(Current()))
    {
      if rgbValues[channelIndex] < ChannelMax {
        rgbValues[channelIndex] := rgbValues[channelIndex] + 1;
      }
      UpdateDisplay();
    }

    /** down_click_handler: Decrement on the selected channel, then update_display. */
    method DownClickHandler()
      requires Allocated() && channelIndex <= Blue
      modifies this`selectionFrame, rgbValues, colorTextBuffer
      ensures Allocated() && Displayed()
      ensures Current() == Decrement(old(Current()))
    {
      if rgbValues[channelIndex] > 0 {
        rgbValues[channelIndex] := rgbValues[channelIndex] - 1;
      }
      UpdateDisplay();
    }

    /** select_click_handler: the uint8_t index goes up by one and wraps to Red at ChannelMax. */
    method SelectClickHandler()
      requires Allocated()
      modifies this`channelIndex, this`selectionFrame, colorTextBuffer
      ensures Allocated() && Displayed()
      ensures Current() == AdvanceSelection(old(Current()))
      ensures SelectionFrame(channelIndex).None? ==> selectionFrame == old(selectionFrame)
    {
      channelIndex := (channelIndex + 1) % 0x100;
      if channelIndex == ChannelMax {
        channelIndex := Red;
      }
      UpdateDisplay();
    }

    /**
     The colour canvas_update_proc fills the canvas with: opaque, with the
     channel values as its r, g and b. While the display is up to date the
     label's eight digits denote that colour's ARGB byte.
     */
    method CanvasFillColor() returns (color: GColor8)
      requires Allocated()
      ensures color.a == Alpha
      ensures [color.r, color.g, color.b] == rgbValues[..]
      ensures Valid() ==> IsColor(color)
      ensures Valid() && Displayed() ==> BinaryValue(colorTextBuffer[2..10]) == Argb(color)
    {
      color := GColor8(Alpha, rgbValues[Red], rgbValues[Green], rgbValues[Blue]);
      if Valid() {
        LabelIsArgbBinary(color);
      }
    }
  }

  /**
   update_display run twice in a row: the second run writes exactly what the
   first wrote, so redrawing is idempotent. The first run's output is returned.
   */
  method RedrawTwice(browser: ColorBrowser) returns (text: seq<char>, frame: GRect)
    requires browser.Allocated()
    modifies browser`selectionFrame, browser.colorTextBuffer
    ensures browser.Allocated() && browser.Displayed()
    ensures browser.Current() == old(browser.Current())
    ensures browser.colorTextBuffer[..] == text && browser.selectionFrame == frame
  {
    browser.UpdateDisplay();
    text := browser.colorTextBuffer[..];
    frame := browser.selectionFrame;
    browser.UpdateDisplay();
  }
}
