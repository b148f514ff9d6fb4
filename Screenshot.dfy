/**
  Taking a screenshot: find the drawing process, locate its frame buffer, read one
  frame, decode it to grey and hand it to the image encoder. The processes and their
  `/proc` files are given as values.
*/
module Screenshot {
  import opened Wrappers
  import opened Strings
  import opened Memory
  import opened Device
  import opened MemoryMaps
  import opened FrameLocator
  import opened PixelDecode

  /** What `/proc/<pid>` offers: the lines of `maps` and the bytes of `mem`. */
  datatype Proc = Proc(maps: seq<string>, mem: seq<byte>)

  /** The system as the pipeline sees it: what `pidof xochitl` prints and the processes. */
  datatype System = System(pidofOutput: string, procs: map<string, Proc>)

  /**
    The image-library part of `process_image` (PNG encoding, Lanczos resizing to
    768x1024, PNG encoding again), given as a function that may fail.
  */
  type Encoder = seq<byte> -> Option<seq<byte>>

  class Screenshot {
    /** The last PNG taken. */
    var data: seq<byte>
    const deviceModel: DeviceModel

    constructor(model: DeviceModel)
      ensures data == [] && deviceModel == model
    {
      data := [];
      deviceModel := model;
    }

    function ScreenWidth(): nat {
      match deviceModel
      case Remarkable2 => 1872
      case RemarkablePaperPro => 1624
      case Unknown => 1872
    }

    function ScreenHeight(): nat {
      match deviceModel
      case Remarkable2 => 1404
      case RemarkablePaperPro => 2154
      case Unknown => 1404
    }

    function BytesPerPixel(): nat {
      match deviceModel
      case Remarkable2 => 2
      case RemarkablePaperPro => 4
      case Unknown => 2
    }

    /** The screenshot's own copies of the dimension tables agree with the device's. */
    lemma TablesAgree()
      ensures ScreenWidth() == deviceModel.ScreenWidth()
      ensures ScreenHeight() == deviceModel.ScreenHeight()
      ensures BytesPerPixel() == deviceModel.BytesPerPixel()
    {
    }

    /** Bytes in one frame: `screen_width * screen_height * bytes_per_pixel`. */
    function FrameSize(): (n: nat)
      ensures n == ScreenWidth() * ScreenHeight() * BytesPerPixel() == deviceModel.FrameSize()
    {
      ScreenWidth() * ScreenHeight() * BytesPerPixel()
    }

    /** `find_framebuffer_address` as a function. */
    function FramebufferAddress(sys: System, pid: string): Result<nat, Error> {
      if deviceModel == RemarkablePaperPro then
        if pid !in sys.procs then Failure(MapsUnreadable)
        else
          var start :- MemoryRangeEnd(sys.procs[pid].maps);
          Walk(sys.procs[pid].mem, start, FrameSize())
      else
        // a missing maps file makes grep print nothing on standard output
        Rm2FramebufferAddress(if pid in sys.procs then sys.procs[pid].maps else [])
    }

    /** `find_framebuffer_address`: the Paper Pro walks the allocator headers, the others ask grep. */
    method FindFramebufferAddress(sys: System, pid: string) returns (r: Result<nat, Error>)
      ensures r == FramebufferAddress(sys, pid)
    {
      if deviceModel == RemarkablePaperPro {
        if pid !in sys.procs {
          return Failure(MapsUnreadable);
        }
        var startAddress := GetMemoryRange(sys.procs[pid].maps);
        if startAddress.Failure? {
          return Failure(startAddress.error);
        }
        r := CalculateFramePointer(sys.procs[pid].mem, startAddress.value, FrameSize());
      } else {
        r := Rm2FramebufferAddress(if pid in sys.procs then sys.procs[pid].maps else []);
      }
    }

    /** `read_framebuffer`: exactly one frame from `skip` on, or failure. */
    function ReadFramebuffer(sys: System, pid: string, skip: nat): (r: Result<seq<byte>, Error>)
      ensures r.Success? <==> pid in sys.procs && skip + FrameSize() <= |sys.procs[pid].mem|
      ensures r.Success? ==> r.value == sys.procs[pid].mem[skip..skip + FrameSize()]
      ensures r.Failure? ==> r.error == ReadFailed
    {
      if pid !in sys.procs then Failure(ReadFailed)
      else ReadExact(sys.procs[pid].mem, skip, FrameSize())
    }

    /** `encode_png`'s choice of decoder, before the PNG encoding. */
    function Decode(raw: seq<byte>): (gray: seq<byte>)
      requires |raw| == FrameSize()
      ensures |gray| == ScreenWidth() * ScreenHeight()
    {
      if deviceModel == RemarkablePaperPro then RgbaGray(raw, ScreenWidth(), ScreenHeight())
      else Rm2Gray(raw, ScreenWidth(), ScreenHeight())
    }

    /** The decode loops the model runs, matching `Decode`. */
    method EncodePng(raw: seq<byte>) returns (gray: seq<byte>)
      requires |raw| == FrameSize()
      ensures gray == Decode(raw)
    {
      if deviceModel == RemarkablePaperPro {
        gray := EncodeRmpp(raw, ScreenWidth(), ScreenHeight());
      } else {
        gray := EncodeRm2(raw, ScreenWidth(), ScreenHeight());
      }
    }

    /** `take_screenshot` as a function: the image it stores, or the first failure. */
    function Capture(sys: System, encode: Encoder): Result<seq<byte>, Error> {
      var pid :- FindXochitlPid(sys.pidofOutput);
      var skip :- FramebufferAddress(sys, pid);
      var raw :- ReadFramebuffer(sys, pid, skip);
      match encode(Decode(raw))
      case None => Failure(EncodeFailed)
      case Some(png) => Success(png)
    }

    /** `take_screenshot`: `data` changes only when every step succeeded. */
    method TakeScreenshot(sys: System, encode: Encoder) returns (r: Result<(), Error>)
      modifies this
      ensures r.Success? <==> Capture(sys, encode).Success?
      ensures r.Success? ==> data == Capture(sys, encode).value
      ensures r.Failure? ==> r.error == Capture(sys, encode).error && data == old(data)
    {
      var pid := FindXochitlPid(sys.pidofOutput);
      if pid.Failure? {
        return Failure(pid.error);
      }
      var skipBytes := FindFramebufferAddress(sys, pid.value);
      if skipBytes.Failure? {
        return Failure(skipBytes.error);
      }
      var screenshotData := ReadFramebuffer(sys, pid.value, skipBytes.value);
      if screenshotData.Failure? {
        return Failure(screenshotData.error);
      }
      var gray := EncodePng(screenshotData.value);
      var processedData := encode(gray);
      if processedData.None? {
        return Failure(EncodeFailed);
      }
      data := processedData.value;
      return Success(());
    }

    /** Without a `xochitl` pid nothing is read. */
    lemma CaptureNeedsPid(sys: System, encode: Encoder)
      requires AllWhitespace(sys.pidofOutput)
      ensures Capture(sys, encode) == Failure(NoXochitlProcess)
    {
    }

    /**
      A stored image is the encoding of the decoded frame that starts at the located
      address of the first pid `pidof` printed.
    */
    lemma CaptureReadsLocatedFrame(sys: System, encode: Encoder)
      requires Capture(sys, encode).Success?
      ensures FindXochitlPid(sys.pidofOutput).Success?
      ensures
        var pid := FindXochitlPid(sys.pidofOutput).value;
        && pid in sys.procs
        && FramebufferAddress(sys, pid).Success?
        && var skip := FramebufferAddress(sys, pid).value;
        && skip + FrameSize() <= |sys.procs[pid].mem|
        && encode(Decode(sys.procs[pid].mem[skip..skip + FrameSize()])) == Some(Capture(sys, encode).value)
    {
      var pid := FindXochitlPid(sys.pidofOutput).value;
      var skip := FramebufferAddress(sys, pid).value;
      var read := ReadFramebuffer(sys, pid, skip);
      assert read.Success?;
    }
  }
}
