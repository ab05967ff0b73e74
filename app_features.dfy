/**
 * The knob dispatcher as the firmware runs it: module statics updated in
 * place, and two send helpers that hand a press and then a release to the
 * USB stack. The reports handed over are recorded in the ghost trace `sent`.
 */
module AppFeatures {
  import opened HidReports
  import opened VolumeControl

  class KnobDispatcher {
    /** Current volume level, percent. */
    var volume: int
    /** Set during the debounce wait at the end of a call. */
    var debounce: bool
    /** The screen the UI shows; owned and written by the UI. */
    var screenId: byte
    /** Every report handed to the USB stack, in order. */
    ghost var sent: seq<Report>

    ghost function State(): KnobState
      reads this
    {
      KnobState(volume, debounce, screenId, sent)
    }

    /** Level within [0, 100]; trace made of press/release pairs. */
    ghost predicate Valid()
      reads this
    {
      InRange(volume) && WellPaired(sent)
    }

    /** Power-up: level 50, flag clear, nothing sent; the UI shows `screen`. */
    constructor (screen: byte)
      ensures Valid()
      ensures State() == Initial(screen)
    {
      volume := INITIAL_VOLUME;
      debounce := false;
      screenId := screen;
      sent := [];
    }

    /** Sends the keyboard press with `code` in slot 0, then the release. */
    method SendHidMacro(code: byte)
      modifies this`sent
      ensures sent == old(sent) + KeyboardPair(code)
      ensures old(Valid()) ==> Valid()
    {
      var keycode := new byte[KEYCODE_SLOTS](_ => 0);
      keycode[0] := code;
      sent := sent + [Keyboard(REPORT_ID_KEYBOARD, 0, Keys(keycode[..]))];
      // settle delay
      sent := sent + [Keyboard(REPORT_ID_KEYBOARD, 0, NoKeys)];
      assert keycode[..] == [code, 0, 0, 0, 0, 0];
      KeyboardPairPaired(code);
      if old(Valid()) { PairedAppend(old(sent), KeyboardPair(code)); }
    }

    /** Sends the consumer-control press with `usage`, then usage 0. */
    method SendConsumerControl(usage: u16)
      modifies this`sent
      ensures sent == old(sent) + ConsumerPair(usage)
      ensures old(Valid()) ==> Valid()
    {
      sent := sent + [Consumer(REPORT_ID_CONSUMER_CONTROL, usage)];
      // settle delay
      var emptyKey: u16 := 0;
      sent := sent + [Consumer(REPORT_ID_CONSUMER_CONTROL, emptyKey)];
      ConsumerPairPaired(usage);
      if old(Valid()) { PairedAppend(old(sent), ConsumerPair(usage)); }
    }

    /** Handles one knob event code. */
    method ProcessKnobEvent(event: int)
      modifies this`volume, this`debounce, this`sent
      ensures State() == Handle(old(State()), event)
      ensures old(Valid()) ==> Valid()
    {
      if screenId != CONTROLS_SCREEN {
        return;
      }
      if debounce {
        return;
      }
      if event == KNOB_LEFT {
        if volume < MAX_VOLUME {
          volume := volume + VOLUME_STEP;
          if volume > MAX_VOLUME {
            volume := MAX_VOLUME;
          }
          SendConsumerControl(HID_USAGE_CONSUMER_VOLUME_INCREMENT);
        }
      } else if event == KNOB_RIGHT {
        if volume > MIN_VOLUME {
          volume := volume - VOLUME_STEP;
          if volume < MIN_VOLUME {
            volume := MIN_VOLUME;
          }
          SendConsumerControl(HID_USAGE_CONSUMER_VOLUME_DECREMENT);
        }
      } else if event == KNOB_ZERO {
        SendConsumerControl(HID_USAGE_CONSUMER_MUTE);
      }
      debounce := true;
      // debounce delay
      debounce := false;
    }
  }
}
