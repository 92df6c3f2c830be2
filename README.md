# color-browser, modelled in Dafny

color-browser is a Pebble watch app for browsing the 64 opaque colours of the
watch's 8-bit palette. It keeps three two-bit colour channels (red, green,
blue) and a selected channel. The up button raises the selected channel and
the down button lowers it, both clamped to 0..3. The select button moves the
selection R → G → B → R. After every press the app redraws three things:
- the canvas, filled with the opaque colour;
- a text label `0b11RRGGBB`;
- a small black bar under the selected channel's digits.

The model has three modules:

- `Display` (display.dfy) holds the pure parts of the display:
  - `Uint2Str`, the two-character rendering of a channel, with `ParseChannel` as its inverse.
  - `Label`, the text formatted into the 11-byte buffer, with `DecodeLabel` to read the channels back.
  - `Terminated`, the bounded formatting call's effect on a buffer.
  - The fill colour `GColor8` and its ARGB byte (`Argb`, `FromArgb`).
  - `SelectionFrame`, the selection-box frame for each channel index.
  - `BinaryValue`, an independent definition of the number a binary numeral denotes. The renderings are proved against it.
- `Controller` (controller.dfy) is the editing state as a value. It has the three button transitions (`Increment`, `Decrement`, `AdvanceSelection`) and `Run`, which applies a sequence of presses.
- `App` (color_browser.dfy) holds the class `ColorBrowser`. Its fields are the app's globals: the `rgbValues` array, `channelIndex`, the `colorTextBuffer` array and the selection layer's frame. The click handlers, `UpdateDisplay`, the canvas colour and initialisation are methods on it. Each handler is proved against the matching `Controller` function. Each also leaves the display up to date (`Displayed()`), so the display is never stale after a press. `UpdateDisplay` leaves the channels and the index alone, and what it writes depends only on them. So redrawing twice gives the same output as redrawing once (`RedrawTwice`).

`uint8_t` is the subset type `UInt8`. The select handler's `channel_index++` is
modelled as an 8-bit increment that wraps at 256, followed by the comparison
with `CHANNEL_MAX`.

After the presses up, up, select, up, up, up the channels are (2, 3, 0),
Green is selected and the label is `"0b11101100"`. `UpSelectUpFromInitial` and
`UpSelectUpLabel` prove it.

## Model

| member | source | states |
|---|---|---|
| `Display.Uint2Str` | src/color-browser.c:19-27 | the rendering is always 2 characters; for 0..3 both are binary digits; for any other value it is "XX" |
| `Display.Uint2StrIsBinary` | src/color-browser.c:19-27 | for 0..3 the rendering is a two-digit binary numeral whose value is the channel value |
| `Display.ParseChannel` | src/color-browser.c:19-27 | the inverse reading of a rendering; any value it returns is in 0..3 |
| `Display.Uint2StrRoundTrip` | src/color-browser.c:19-27 | reading back a rendering gives the value for 0..3, and for every other value (whose "XX" is rejected) gives nothing |
| `Display.ParseChannelSound` | src/color-browser.c:19-27 | every text the reader accepts is exactly the rendering of the value it returns |
| `Display.Uint2StrInjective` | src/color-browser.c:19-27 | distinct values in 0..3 have distinct renderings |
| `Display.Label` | src/color-browser.c:52-53 | the label is 10 characters long and starts with "0b11" |
| `Display.LabelHasNoTerminator` | src/color-browser.c:52-54 | no character of the label is a terminator, so the text layer shows the whole label |
| `Display.Terminated` | src/color-browser.c:52-53 | a bounded format into `size` bytes never writes more than `size` bytes; a text shorter than the buffer is written whole with its terminator; a longer one keeps only its first `size - 1` characters and still ends with the terminator |
| `Display.LabelFitsBuffer` | src/color-browser.c:52-53 | the label and its terminator fill the 11-byte buffer exactly, so nothing is truncated |
| `Display.DecodeLabel` | src/color-browser.c:52-53 | decoding a label returns only channel values in 0..3 |
| `Display.LabelRoundTrip` | src/color-browser.c:52-53 | when all three channels are in 0..3, they can be decoded back from the label |
| `Display.LabelOutOfRange` | src/color-browser.c:52-53 | a label with an out-of-range channel does not decode |
| `Display.DecodeLabelSound` | src/color-browser.c:52-53 | every text that decodes is exactly the label of the decoded channels |
| `Display.LabelInjective` | src/color-browser.c:52-53 | distinct in-range colours have distinct labels |
| `Display.Argb` | src/color-browser.c:33-38 | a colour whose four fields are two-bit values packs into one byte (< 256) |
| `Display.FromArgb` | src/color-browser.c:33-38 | unpacking any byte gives four two-bit fields |
| `Display.ArgbRoundTrip` | src/color-browser.c:33-38 | unpacking a packed colour gives back the colour |
| `Display.FromArgbRoundTrip` | src/color-browser.c:33-38 | packing an unpacked byte gives back the byte |
| `Display.LabelIsArgbBinary` | src/color-browser.c:33-53 | for an opaque in-range colour, the label is "0b" followed by eight binary digits whose value is the colour's ARGB byte |
| `Display.SelectionFrame` | src/color-browser.c:57-68 | indices 0..2 get the frame (62 + 18·index, 20, 18, 4); any other index gets no frame, so the box keeps its previous one |
| `Display.SelectionFramesAbut` | src/color-browser.c:57-68 | each selection bar ends where the next one begins, so the three bars do not overlap |
| `Controller.Increment` | src/color-browser.c:71-77 | below CHANNEL_MAX the selected channel rises by exactly 1; at CHANNEL_MAX the state is unchanged; the other channels and the index never change; the 0..3 bounds are preserved |
| `Controller.Decrement` | src/color-browser.c:79-85 | above 0 the selected channel falls by exactly 1; at 0 the state is unchanged; the other channels and the index never change; the 0..3 bounds are preserved |
| `Controller.NextIndex` | src/color-browser.c:89-92 | the 8-bit increment with its reset maps each channel index i to (i + 1) mod 3, and never yields 3 |
| `Controller.AdvanceSelection` | src/color-browser.c:87-95 | the index goes 0→1→2→0; the channel values are unchanged; the index stays a channel index and the invariant is preserved |
| `Controller.AdvanceSelectionCycles` | src/color-browser.c:87-95 | three selects return to the starting channel, and the three indices visited are distinct |
| `Controller.Step` | src/color-browser.c:97-101 | every button press keeps the state indexable and keeps the invariant |
| `Controller.Run` | src/color-browser.c:97-101 | every sequence of presses keeps the state indexable and keeps the invariant, so a channel never leaves 0..3 |
| `Controller.RepeatedIncrement` | src/color-browser.c:71-77 | n presses of up raise the selected channel to min(v + n, 3) and change nothing else |
| `Controller.RepeatedDecrement` | src/color-browser.c:79-85 | n presses of down lower the selected channel to max(v − n, 0) and change nothing else |
| `Controller.UpSelectUpFromInitial` | src/color-browser.c:71-95 | from the initial state, up ×2, select, up ×3 ends at (2, 3, 0) with Green selected; Green is clamped at 3, never 4 |
| `Controller.UpSelectUpLabel` | src/color-browser.c:52-53 | the label for the channels (2, 3, 0) is "0b11101100" |
| `App.ColorBrowser.constructor` | src/color-browser.c:141-145 | initialisation gives all channels 0 and Red selected; the label is shown and the box is under R |
| `App.ColorBrowser.UpdateDisplay` | src/color-browser.c:47-69 | the buffer holds the label of the current channels plus its terminator; the box moves to the selected channel's frame, or stays put for an out-of-range index; channels and index are untouched |
| `App.ColorBrowser.UpClickHandler` | src/color-browser.c:71-77 | the new state is `Increment` of the old, and the display matches it |
| `App.ColorBrowser.DownClickHandler` | src/color-browser.c:79-85 | the new state is `Decrement` of the old, and the display matches it |
| `App.ColorBrowser.SelectClickHandler` | src/color-browser.c:87-95 | the new state is `AdvanceSelection` of the old, and the display matches it; for an index that is not a channel the box keeps its old frame |
| `App.RedrawTwice` | src/color-browser.c:47-69 | a second update_display writes the same buffer and frame as the first and leaves channels and index unchanged |
| `App.ColorBrowser.CanvasFillColor` | src/color-browser.c:33-38 | the fill colour has alpha 3 and r, g, b equal to the channel values; while the display is current, the label's eight digits denote that colour's ARGB byte |

## Left out

- Window, layer and text-layer creation and destruction (`main_window_load`, `main_window_unload`, `window_create`, `window_stack_push`, `deinit`, `main`) are calls into the Pebble SDK. The only value kept from them is the selection layer's initial empty frame.
- Click subscription (`click_config_provider`) and the event loop (`app_event_loop`) belong to the runtime. `Controller.Step` stands for the button-to-handler mapping, and `Controller.Run` for a sequence of delivered events.
- Drawing calls are not modelled: `graphics_context_set_fill_color`, `graphics_fill_rect`, `layer_mark_dirty`, `text_layer_set_text`, fonts and `selection_update_proc`'s fixed black fill. The model keeps only the values handed to them: the colour, the label and the frame.
- `snprintf`'s formatting machinery is not modelled. The label is a concatenation, and `Display.Terminated` stands for the bounded write into the buffer.
- `Display.Argb`: the layout a<<6 | r<<4 | g<<2 | b is an assumption about `GColor8`. Its definition in `pebble.h` is not part of this model.
- App.ColorBrowser.UpClickHandler and App.ColorBrowser.DownClickHandler require a channel index in 0..2. In C an out-of-range index would access memory outside `rgb_values`. The constructor and every handler keep the index in range, so this never happens.
