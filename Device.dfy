/** The supported tablet models and their fixed hardware parameters. */
module Device {

  datatype DeviceModel = Remarkable2 | RemarkablePaperPro | Unknown {

    function Name(): string {
      match this
      case Remarkable2 => "Remarkable2"
      case RemarkablePaperPro => "RemarkablePaperPro"
      case Unknown => "Unknown"
    }

    /** Screen width in pixels; an unknown model is treated as a reMarkable 2. */
    function ScreenWidth(): nat {
      match this
      case Remarkable2 => 1872
      case RemarkablePaperPro => 1624
      case Unknown => 1872
    }

    function ScreenHeight(): nat {
      match this
      case Remarkable2 => 1404
      case RemarkablePaperPro => 2154
      case Unknown => 1404
    }

    function BytesPerPixel(): nat {
      match this
      case Remarkable2 => 2
      case RemarkablePaperPro => 4
      case Unknown => 2
    }

    function PenInputDevice(): string {
      match this
      case Remarkable2 => "/dev/input/event1"
      case RemarkablePaperPro => "/dev/input/event2"
      case Unknown => "/dev/input/event1"
    }

    function TouchInputDevice(): string {
      match this
      case Remarkable2 => "/dev/input/event2"
      case RemarkablePaperPro => "/dev/input/event3"
      case Unknown => "/dev/input/event2"
    }

    function MaxXValue(): int {
      match this
      case Remarkable2 => 15725
      case RemarkablePaperPro => 11180
      case Unknown => 15725
    }

    function MaxYValue(): int {
      match this
      case Remarkable2 => 20966
      case RemarkablePaperPro => 15340
      case Unknown => 20966
    }

    /** Bytes of one frame in the frame buffer. */
    function FrameSize(): nat {
      ScreenWidth() * ScreenHeight() * BytesPerPixel()
    }
  }

  /** Every parameter of an unknown model is the reMarkable 2's; only the name differs. */
  lemma UnknownActsAsRemarkable2()
    ensures Unknown.ScreenWidth() == Remarkable2.ScreenWidth()
    ensures Unknown.ScreenHeight() == Remarkable2.ScreenHeight()
    ensures Unknown.BytesPerPixel() == Remarkable2.BytesPerPixel()
    ensures Unknown.PenInputDevice() == Remarkable2.PenInputDevice()
    ensures Unknown.TouchInputDevice() == Remarkable2.TouchInputDevice()
    ensures Unknown.MaxXValue() == Remarkable2.MaxXValue()
    ensures Unknown.MaxYValue() == Remarkable2.MaxYValue()
    ensures Unknown.Name() != Remarkable2.Name()
  {
  }

  /** The frame sizes the header walk searches for. */
  lemma FrameSizes()
    ensures Remarkable2.FrameSize() == 1872 * 1404 * 2 == 5256576
    ensures RemarkablePaperPro.FrameSize() == 1624 * 2154 * 4 == 13992384
    ensures Unknown.FrameSize() == Remarkable2.FrameSize()
  {
  }

  /** The names tell the three models apart. */
  lemma NamesDistinct(a: DeviceModel, b: DeviceModel)
    ensures a.Name() == b.Name() <==> a == b
  {
  }

  /** The pen and the touch screen are always different input devices. */
  lemma PenIsNotTouch(m: DeviceModel)
    ensures m.PenInputDevice() != m.TouchInputDevice()
  {
  }
}
