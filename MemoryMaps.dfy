/**
  Finding the drawing process and the address of its frame buffer from the text the
  system gives: the output of `pidof xochitl` and the lines of `/proc/<pid>/maps`.
*/
module MemoryMaps {
  import opened Wrappers
  import opened Strings
  import opened Memory

  /** The device file the reMarkable 2 maps its frame buffer next to. */
  const FB0: string := "/dev/fb0"
  /** The device file the Paper Pro maps its frame buffer from. */
  const CARD0: string := "/dev/dri/card0"

  /** `find_xochitl_pid`: the first whitespace-separated pid printed by `pidof`. */
  function FindXochitlPid(pidofOutput: string): (r: Result<string, Error>)
    ensures r.Failure? <==> AllWhitespace(pidofOutput)
    ensures r.Failure? ==> r.error == NoXochitlProcess
    ensures r.Success? ==>
      var a := TrimOffset(pidofOutput);
      && r.value != [] && NoWhitespace(r.value)
      && AllWhitespace(pidofOutput[..a])
      && a + |r.value| <= |pidofOutput| && pidofOutput[a..a + |r.value|] == r.value
      && (a + |r.value| == |pidofOutput| || IsWhitespace(pidofOutput[a + |r.value|]))
  {
    match FirstToken(pidofOutput)
    case None => Failure(NoXochitlProcess)
    case Some(pid) => Success(pid)
  }

  /** The index of the last line that contains `pattern`. */
  function LastMatch(lines: seq<string>, pattern: string): (k: Option<nat>)
    ensures k.None? ==> forall j | 0 <= j < |lines| :: !Contains(lines[j], pattern)
    ensures k.Some? ==>
      && k.value < |lines| && Contains(lines[k.value], pattern)
      && forall j | k.value < j < |lines| :: !Contains(lines[j], pattern)
  {
    if lines == [] then None
    else if Contains(lines[|lines| - 1], pattern) then Some(|lines| - 1)
    else LastMatch(lines[..|lines| - 1], pattern)
  }

  /**
    The last line printed by `grep -C1 pattern | tail -n1`: the line after the last
    match (one line of trailing context), or the match itself when it is the final
    line; nothing when no line matches.
  */
  function GrepContextTail(lines: seq<string>, pattern: string): (r: Option<string>)
    ensures r.None? <==> LastMatch(lines, pattern).None?
  {
    match LastMatch(lines, pattern)
    case None => None
    case Some(k) => Some(if k + 1 < |lines| then lines[k + 1] else lines[k])
  }

  /** `sed 's/-.*$//'`: everything before the first '-'. */
  function CutAtDash(line: string): (r: string)
    ensures '-' !in r && StartsWith(line, r)
    ensures |r| < |line| ==> line[|r|] == '-'
  {
    line[..IndexOf(line, '-')]
  }

  /**
    `find_framebuffer_address` on models other than the Paper Pro: the start address
    printed by the shell pipeline, trimmed and read as hexadecimal, plus 7.
  */
  function Rm2FramebufferAddress(maps: seq<string>): (r: Result<nat, Error>)
    ensures r.Success? ==> r.value >= 7
    ensures r.Failure? ==> r.error == InvalidAddress
  {
    var printed := match GrepContextTail(maps, FB0) case None => "" case Some(line) => CutAtDash(line);
    match ParseHexU64(Trim(printed))
    case None => Failure(InvalidAddress)
    case Some(address) => Success(address + 7)
  }

  /** Without any line that mentions the frame buffer the pipeline prints nothing. */
  lemma Rm2NoFramebuffer(maps: seq<string>)
    requires forall j | 0 <= j < |maps| :: !Contains(maps[j], FB0)
    ensures Rm2FramebufferAddress(maps) == Failure(InvalidAddress)
  {
  }

  /** A maps line as the kernel prints it: `start-end perms ...`, in lower-case hexadecimal. */
  function MapsLine(start: nat, end: nat, rest: string): string {
    ToDigits(start, 16) + "-" + ToDigits(end, 16) + " " + rest
  }



  /**
    When the line printed last starts with a start address in hexadecimal followed
    by '-', the result is that address plus 7.
  */
  lemma {:induction false} Rm2Address(maps: seq<string>, start: nat, end: nat, rest: string)
    requires start < U64_BOUND
    requires GrepContextTail(maps, FB0) == Some(MapsLine(start, end, rest))
    ensures Rm2FramebufferAddress(maps) == Success(start + 7)
  {
    var s := ToDigits(start, 16);
    DigitsAreNotSpecial(start, 16);
    var line := MapsLine(start, end, rest);
    assert line == s + ['-'] + (ToDigits(end, 16) + " " + rest);
    IndexOfAfter(s, '-', ToDigits(end, 16) + " " + rest);
    assert CutAtDash(line) == s;
    TrimNoWhitespace(s);
    ParseToDigits(start, 16, U64_BOUND);
  }


  /**
    `get_memory_range` as a function: the end address of the range on the last line
    that mentions `/dev/dri/card0`.
  */
  function MemoryRangeEnd(maps: seq<string>): (r: Result<nat, Error>)
    ensures r.Success? ==> r.value < U64_BOUND
    ensures r == Failure(NoCard0Mapping) <==> forall j | 0 <= j < |maps| :: !Contains(maps[j], CARD0)
  {
    match LastMatch(maps, CARD0)
    case None => Failure(NoCard0Mapping)
    case Some(k) =>
      ContainsNotBlank(maps[k], CARD0, 0);
      RangeEnd(FirstToken(maps[k]).value)
  }

  /** The end of an address range `start-end`, which must have exactly one '-'. */
  function RangeEnd(field: string): (r: Result<nat, Error>)
    ensures r.Success? ==> r.value < U64_BOUND
    ensures r.Failure? ==> r.error in {InvalidMemoryRange, InvalidAddress}
  {
    var parts := Split(field, '-');
    if |parts| != 2 then Failure(InvalidMemoryRange)
    else match ParseHexU64(parts[1])
      case None => Failure(InvalidAddress)
      case Some(end) => Success(end)
  }

  /** The range is rejected as malformed exactly when it does not hold exactly one '-'. */
  lemma RangeEndDashes(field: string)
    ensures RangeEnd(field) == Failure(InvalidMemoryRange) <==> multiset(field)['-'] != 1
  {
    SplitCount(field, '-');
  }




  /** A well-formed last `/dev/dri/card0` line gives the end address of its range. */
  lemma {:induction false} MemoryRangeOfLine(maps: seq<string>, k: nat, start: nat, end: nat, rest: string)
    requires end < U64_BOUND
    requires LastMatch(maps, CARD0) == Some(k) && maps[k] == MapsLine(start, end, rest)
    ensures MemoryRangeEnd(maps) == Success(end)
  {
    var a, b := ToDigits(start, 16), ToDigits(end, 16);
    DigitsAreNotSpecial(start, 16);
    DigitsAreNotSpecial(end, 16);
    var field := a + "-" + b;
    assert NoWhitespace(field) by {
      forall i | 0 <= i < |field| ensures !IsWhitespace(field[i]) {
        if i < |a| { assert field[i] == a[i]; }
        else if i > |a| { assert field[i] == b[i - |a| - 1]; }
      }
    }
    assert maps[k] == field + " " + rest;
    FirstTokenOfLine(field, rest);
    SplitOneDash(a, b);
    ParseToDigits(end, 16, U64_BOUND);
  }



  /** Characters before the first separator join the first part. */

  /**
    `get_memory_range`: scan the lines keeping the last one that mentions
    `/dev/dri/card0`, then read the end of the address range in its first field.
  */
  method GetMemoryRange(maps: seq<string>) returns (r: Result<nat, Error>)
    ensures r == MemoryRangeEnd(maps)
  {
    var memoryRange: string := "";
    var found: Option<nat> := None;
    for i := 0 to |maps|
      invariant found == LastMatch(maps[..i], CARD0)
      invariant memoryRange == (match found case None => "" case Some(k) => maps[k])
    {
      assert maps[..i + 1][..i] == maps[..i];
      if Contains(maps[i], CARD0) {
        memoryRange := maps[i];
        found := Some(i);
      }
    }
    assert maps[..|maps|] == maps;
    if memoryRange == [] {
      return Failure(NoCard0Mapping);
    }
    ContainsNotBlank(memoryRange, CARD0, 0);
    var fields := FirstToken(memoryRange);
    var startEnd := Split(fields.value, '-');
    if |startEnd| != 2 {
      return Failure(InvalidMemoryRange);
    }
    match ParseHexU64(startEnd[1]) {
      case None => return Failure(InvalidAddress);
      case Some(end) => return Success(end);
    }
  }
}
