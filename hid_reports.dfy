/**
 * The HID reports the knob firmware hands to the USB stack, and the
 * press/release discipline they follow.
 *
 * Two channels exist: the keyboard report (report ID 1, the TinyUSB value of
 * HID_ITF_PROTOCOL_KEYBOARD) and the consumer-control report (report ID 3).
 * Every send helper emits a press followed by the release of the same
 * channel; `WellPaired` captures that shape for a whole trace of reports.
 */
module HidReports {

  newtype byte = x: int | 0 <= x < 0x100
  newtype u16 = x: int | 0 <= x < 0x1_0000

  /** Report ID of the keyboard report (HID_ITF_PROTOCOL_KEYBOARD in TinyUSB). */
  const REPORT_ID_KEYBOARD: byte := 1
  /** Report ID of the consumer-control report, as numbered in the USB descriptors. */
  const REPORT_ID_CONSUMER_CONTROL: byte := 3

  /** Consumer page (0x0C) usages of the USB HID Usage Tables, section 15. */
  const HID_USAGE_CONSUMER_MUTE: u16 := 0xE2
  const HID_USAGE_CONSUMER_VOLUME_INCREMENT: u16 := 0xE9
  const HID_USAGE_CONSUMER_VOLUME_DECREMENT: u16 := 0xEA

  /** Number of keycode slots in a boot keyboard report. */
  const KEYCODE_SLOTS: nat := 6

  /**
   * What the keyboard sender passes as its keycode argument: a buffer of
   * keycodes, or a null pointer, which the USB stack reads as "no key held".
   */
  datatype KeyPayload = Keys(codes: seq<byte>) | NoKeys

  datatype Report =
    | Keyboard(reportId: byte, modifier: byte, keys: KeyPayload)
    | Consumer(reportId: byte, usage: u16)

  /** The report that releases everything on the channel of `r`. */
  function ReleaseOf(r: Report): (rel: Report)
    ensures rel.Keyboard? == r.Keyboard? && rel.reportId == r.reportId
  {
    match r
    case Keyboard(id, _, _) => Keyboard(id, 0, NoKeys)
    case Consumer(id, _) => Consumer(id, 0)
  }

  /** A release report: modifier 0 and a null keycode buffer, or usage 0. */
  predicate IsRelease(r: Report) {
    r == ReleaseOf(r)
  }

  /** The consumer-control press carrying `usage`, then its release. */
  function ConsumerPair(usage: u16): (t: seq<Report>)
    ensures |t| == 2 && t[1] == ReleaseOf(t[0])
    ensures t[0].Consumer? && t[0].reportId == REPORT_ID_CONSUMER_CONTROL && t[0].usage == usage
    ensures IsRelease(t[0]) <==> usage == 0
  {
    [Consumer(REPORT_ID_CONSUMER_CONTROL, usage), Consumer(REPORT_ID_CONSUMER_CONTROL, 0)]
  }

  /** The keyboard press with `code` in slot 0 and modifier 0, then its release. */
  function KeyboardPair(code: byte): (t: seq<Report>)
    ensures |t| == 2 && t[1] == ReleaseOf(t[0])
    ensures t[0].Keyboard? && t[0].reportId == REPORT_ID_KEYBOARD && t[0].modifier == 0
    ensures t[0].keys.Keys? && |t[0].keys.codes| == KEYCODE_SLOTS && t[0].keys.codes[0] == code
    ensures forall k :: 1 <= k < KEYCODE_SLOTS ==> t[0].keys.codes[k] == 0
    ensures !IsRelease(t[0])
  {
    [Keyboard(REPORT_ID_KEYBOARD, 0, Keys([code, 0, 0, 0, 0, 0])),
     Keyboard(REPORT_ID_KEYBOARD, 0, NoKeys)]
  }

  /**
   * A trace made only of press/release pairs: each report at an even
   * position is immediately followed by the release of its own channel.
   */
  predicate WellPaired(t: seq<Report>)
    decreases |t|
  {
    t == [] || (|t| >= 2 && t[1] == ReleaseOf(t[0]) && WellPaired(t[2..]))
  }

  /** Appending pairs to a paired trace keeps it paired. */
  lemma {:induction false} PairedAppend(a: seq<Report>, b: seq<Report>)
    requires WellPaired(a) && WellPaired(b)
    ensures WellPaired(a + b)
    decreases |a|
  {
    if a != [] {
      PairedAppend(a[2..], b);
      assert (a + b)[0] == a[0] && (a + b)[1] == a[1];
      assert (a + b)[2..] == a[2..] + b;
    } else {
      assert a + b == b;
    }
  }

  /** Each send helper's output is a paired trace on its own. */
  lemma ConsumerPairPaired(usage: u16)
    ensures WellPaired(ConsumerPair(usage))
  {
  }

  lemma KeyboardPairPaired(code: byte)
    ensures WellPaired(KeyboardPair(code))
  {
  }

  /**
   * In a paired trace, a report at an even position is followed by the
   * release of its channel, and a report at an odd position is a release.
   */
  lemma {:induction false} PairedAt(t: seq<Report>, i: nat)
    requires WellPaired(t) && i < |t|
    ensures i % 2 == 0 ==> i + 1 < |t| && t[i + 1] == ReleaseOf(t[i])
    ensures i % 2 == 1 ==> IsRelease(t[i])
    decreases i
  {
    if i >= 2 {
      PairedAt(t[2..], i - 2);
    }
  }

  /** Every press in a paired trace is immediately followed by its release. */
  lemma PressImmediatelyReleased(t: seq<Report>, i: nat)
    requires WellPaired(t) && i < |t| && !IsRelease(t[i])
    ensures i + 1 < |t| && t[i + 1] == ReleaseOf(t[i]) && IsRelease(t[i + 1])
  {
    PairedAt(t, i);
  }

  /** No two presses in a paired trace occur without a release between them. */
  lemma PressesSeparated(t: seq<Report>, i: nat, j: nat)
    requires WellPaired(t) && i < j < |t|
    requires !IsRelease(t[i]) && !IsRelease(t[j])
    ensures exists k :: i < k < j && IsRelease(t[k])
  {
    PressImmediatelyReleased(t, i);
    assert IsRelease(t[i + 1]);
  }
}
