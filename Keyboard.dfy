/**
  The virtual keyboard: typing text, pressing editor shortcuts and the temporary
  progress notes that are erased again. What the device receives is kept as a log of
  input events; without a device (drawing disabled) nothing is sent.
*/
module Keyboard {
  import opened KeyMap
  import opened Strings

  /** An input event: a key going down (value 1) or up (value 0), or a synchronisation report. */
  datatype Event = Press(key: Key) | Release(key: Key) | Sync

  /** The number of bytes of `s` in UTF-8, which is what `str::len` counts. */
  function Utf8Len(s: string): nat {
    if s == [] then 0
    else
      var c := s[0] as int;
      (if c < 0x80 then 1 else if c < 0x800 then 2 else if c < 0x1_0000 then 3 else 4) + Utf8Len(s[1..])
  }

  predicate IsAscii(s: string) {
    forall i | 0 <= i < |s| :: s[i] as int < 128
  }

  /** Every character takes one to four bytes, and exactly one each when the text is ASCII. */
  lemma {:induction false} Utf8LenBounds(s: string)
    ensures |s| <= Utf8Len(s) <= 4 * |s|
    ensures Utf8Len(s) == |s| <==> IsAscii(s)
  {
    if s != [] {
      Utf8LenBounds(s[1..]);
      if IsAscii(s[1..]) && s[0] as int < 128 {
        assert forall i | 0 <= i < |s| :: s[i] as int < 128 by {
          forall i | 0 <= i < |s| ensures s[i] as int < 128 {
            if i > 0 { assert s[i] == s[1..][i - 1]; }
          }
        }
      }
      if IsAscii(s) {
        assert forall i | 0 <= i < |s| - 1 :: s[1..][i] == s[i + 1];
      }
    }
  }

  /** The events that type one stroke: shift around it if needed, then a report. */
  function StrokeEvents(stroke: KeyStroke): (e: seq<Event>)
    ensures Press(stroke.key) in e && Release(stroke.key) in e && e[|e| - 1] == Sync
  {
    (if stroke.shift then [Press(KeyLeftShift)] else [])
    + [Press(stroke.key), Release(stroke.key)]
    + (if stroke.shift then [Release(KeyLeftShift)] else [])
    + [Sync]
  }

  /** The events that type the mapped characters of `s`, in order; other characters are skipped. */
  function Typed(keyMap: map<char, KeyStroke>, s: string): seq<Event> {
    if s == [] then []
    else (if s[0] in keyMap then StrokeEvents(keyMap[s[0]]) else []) + Typed(keyMap, s[1..])
  }

  /** `string_to_keypresses` on a device: a first report, then the typed characters. */
  function Typing(keyMap: map<char, KeyStroke>, s: string): seq<Event> {
    [Sync] + Typed(keyMap, s)
  }

  /** Typing two texts one after the other is typing their concatenation. */
  lemma {:induction false} TypedAppend(keyMap: map<char, KeyStroke>, s: string, t: string)
    ensures Typed(keyMap, s + t) == Typed(keyMap, s) + Typed(keyMap, t)
  {
    if s != [] {
      assert (s + t)[0] == s[0] && (s + t)[1..] == s[1..] + t;
      TypedAppend(keyMap, s[1..], t);
      var head := if s[0] in keyMap then StrokeEvents(keyMap[s[0]]) else [];
      assert Typed(keyMap, s + t) == head + (Typed(keyMap, s[1..]) + Typed(keyMap, t));
      assert Typed(keyMap, s) == head + Typed(keyMap, s[1..]);
    } else {
      assert s + t == t;
    }
  }

  /** Characters the map lacks produce no events. */
  lemma {:induction false} TypedSkipsUnmapped(keyMap: map<char, KeyStroke>, s: string)
    requires forall i | 0 <= i < |s| :: s[i] !in keyMap
    ensures Typed(keyMap, s) == []
  {
    if s != [] {
      TypedSkipsUnmapped(keyMap, s[1..]);
    }
  }

  /** One stroke presses and releases each key equally often. */
  lemma StrokeBalanced(stroke: KeyStroke, k: Key)
    ensures multiset(StrokeEvents(stroke))[Press(k)] == multiset(StrokeEvents(stroke))[Release(k)]
  {
    var shiftDown: seq<Event> := if stroke.shift then [Press(KeyLeftShift)] else [];
    var shiftUp: seq<Event> := if stroke.shift then [Release(KeyLeftShift)] else [];
    var keyPair: seq<Event> := [Press(stroke.key), Release(stroke.key)];
    var m := multiset(StrokeEvents(stroke));
    assert m == multiset(shiftDown) + multiset(keyPair) + multiset(shiftUp) + multiset{Sync};
    var shifted := if stroke.shift && k == KeyLeftShift then 1 else 0;
    var keyed := if k == stroke.key then 1 else 0;
    assert multiset(shiftDown)[Press(k)] == shifted && multiset(shiftDown)[Release(k)] == 0;
    assert multiset(shiftUp)[Release(k)] == shifted && multiset(shiftUp)[Press(k)] == 0;
    assert multiset(keyPair)[Press(k)] == keyed == multiset(keyPair)[Release(k)];
    assert m[Press(k)] == shifted + keyed == m[Release(k)];
  }

  /** Every key typed is let go again: each key has as many releases as presses. */
  lemma {:induction false} TypedBalanced(keyMap: map<char, KeyStroke>, s: string, k: Key)
    ensures multiset(Typed(keyMap, s))[Press(k)] == multiset(Typed(keyMap, s))[Release(k)]
  {
    if s != [] {
      TypedBalanced(keyMap, s[1..], k);
      var head := if s[0] in keyMap then StrokeEvents(keyMap[s[0]]) else [];
      if s[0] in keyMap {
        StrokeBalanced(keyMap[s[0]], k);
      }
      assert Typed(keyMap, s) == head + Typed(keyMap, s[1..]);
      assert multiset(Typed(keyMap, s)) == multiset(head) + multiset(Typed(keyMap, s[1..]));
    }
  }

  /** The number of characters of `s` the map can type. */
  function MappedCount(keyMap: map<char, KeyStroke>, s: string): nat {
    if s == [] then 0 else (if s[0] in keyMap then 1 else 0) + MappedCount(keyMap, s[1..])
  }

  /** Each typed character ends in exactly one report. */
  lemma {:induction false} TypedReports(keyMap: map<char, KeyStroke>, s: string)
    ensures multiset(Typed(keyMap, s))[Sync] == MappedCount(keyMap, s)
  {
    if s != [] {
      TypedReports(keyMap, s[1..]);
      var head := if s[0] in keyMap then StrokeEvents(keyMap[s[0]]) else [];
      assert Typed(keyMap, s) == head + Typed(keyMap, s[1..]);
    }
  }

  /**
    A note of mapped ASCII characters types exactly as many characters as it has
    bytes, so the backspaces that erase progress remove exactly the note.
  */
  lemma {:induction false} AsciiNoteCount(keyMap: map<char, KeyStroke>, s: string)
    requires IsAscii(s) && forall i | 0 <= i < |s| :: s[i] in keyMap
    ensures MappedCount(keyMap, s) == Utf8Len(s) == |s|
  {
    if s != [] {
      assert forall i | 0 <= i < |s| - 1 :: s[1..][i] == s[i + 1];
      AsciiNoteCount(keyMap, s[1..]);
    }
  }

  /** `n` copies of `e`, one after another. */
  function Repeat(e: seq<Event>, n: nat): (r: seq<Event>)
    ensures |r| == n * |e|
  {
    if n == 0 then [] else Repeat(e, n - 1) + e
  }

  /** The events of `key_cmd`: control (and shift) held while `button` is typed. */
  function CommandEvents(keyMap: map<char, KeyStroke>, button: string, shift: bool): seq<Event> {
    [Press(KeyLeftCtrl), Sync]
    + (if shift then [Press(KeyLeftShift), Sync] else [])
    + Typing(keyMap, button)
    + (if shift then [Release(KeyLeftShift), Sync] else [])
    + [Release(KeyLeftCtrl), Sync]
  }

  lemma Associative(e: seq<Event>, a: seq<Event>, b: seq<Event>, c: seq<Event>)
    ensures e + a + b + c == e + (a + b + c)
  {
  }

  /** Text whose characters have neither a key nor a base types nothing through `create_key_map`'s map. */
  lemma UnlistedTypesNothing(keyMap: map<char, KeyStroke>, s: string)
    requires forall c | c in keyMap :: Listed(Chars(BasicChars), c) || Listed(UnicodeMappings, c)
    requires forall i | 0 <= i < |s| :: UsLayout(s[i]).None? && AccentBase(s[i]).None?
    ensures Typed(keyMap, s) == []
  {
    forall i | 0 <= i < |s|
      ensures s[i] !in keyMap
    {
      UnlistedUnmapped(keyMap, s[i]);
    }
    TypedSkipsUnmapped(keyMap, s);
  }

  /** What a device receives of `e`: all of it, or nothing when there is no device. */
  function Sent(hasDevice: bool, e: seq<Event>): seq<Event> {
    if hasDevice then e else []
  }

  class Keyboard {
    /** Whether the virtual device exists (`no_draw` was not given). */
    const hasDevice: bool
    const keyMap: map<char, KeyStroke>
    const noDrawProgress: bool
    /** The bytes of progress notes typed since the last erase, as a `u32`. */
    var progressCount: nat
    /** Everything emitted on the virtual device so far. */
    var events: seq<Event>

    predicate Valid()
      reads this
    {
      progressCount < U32_BOUND && KeyMapOk(keyMap)
    }

    /** `Keyboard::new`: a device unless drawing is disabled, the key map, and no progress yet. */
    constructor(noDraw: bool, noDrawProgress: bool)
      ensures Valid()
      ensures forall c | c in keyMap ::
        (Listed(Chars(BasicChars), c) || Listed(UnicodeMappings, c)) && EntryOk(UsLayout, UnicodeMappings, c, keyMap[c])
      ensures hasDevice == !noDraw && this.noDrawProgress == noDrawProgress
      ensures progressCount == 0 && events == []
    {
      hasDevice := !noDraw;
      var m := CreateKeyMap();
      keyMap := m;
      this.noDrawProgress := noDrawProgress;
      progressCount := 0;
      events := [];
    }

    /** `key_down`: the key goes down, then a report. */
    method KeyDown(key: Key)
      modifies this
      ensures events == old(events) + Sent(hasDevice, [Press(key), Sync])
      ensures progressCount == old(progressCount)
    {
      if hasDevice {
        events := events + [Press(key), Sync];
      }
    }

    /** `key_up`: the key comes up, then a report. */
    method KeyUp(key: Key)
      modifies this
      ensures events == old(events) + Sent(hasDevice, [Release(key), Sync])
      ensures progressCount == old(progressCount)
    {
      if hasDevice {
        events := events + [Release(key), Sync];
      }
    }

    /** `string_to_keypresses`: a first report, then each mapped character in turn. */
    method StringToKeypresses(input: string)
      modifies this
      ensures events == old(events) + Sent(hasDevice, Typing(keyMap, input))
      ensures progressCount == old(progressCount)
    {
      if hasDevice {
        events := events + [Sync];
        for i := 0 to |input|
          invariant events == old(events) + [Sync] + Typed(keyMap, input[..i])
          invariant progressCount == old(progressCount)
        {
          TypedAppend(keyMap, input[..i], [input[i]]);
          assert input[..i + 1] == input[..i] + [input[i]];
          var c := input[i];
          if c in keyMap {
            EmitStroke(keyMap[c]);
          }
        }
        assert input[..|input|] == input;
      }
    }

    /** The body of the typing loop for one mapped character: shift around the key if needed, then a report. */
    method EmitStroke(stroke: KeyStroke)
      modifies this
      ensures events == old(events) + StrokeEvents(stroke)
      ensures progressCount == old(progressCount)
    {
      if stroke.shift {
        events := events + [Press(KeyLeftShift)];
      }
      events := events + [Press(stroke.key)];
      events := events + [Release(stroke.key)];
      if stroke.shift {
        events := events + [Release(KeyLeftShift)];
      }
      events := events + [Sync];
    }

    /** `key_cmd`: control, and shift if asked, held down while `button` is typed. */
    method KeyCmd(button: string, shift: bool)
      modifies this
      ensures events == old(events) + Sent(hasDevice, CommandEvents(keyMap, button, shift))
      ensures progressCount == old(progressCount)
    {
      ghost var e0 := events;
      ghost var shiftDown: seq<Event> := if shift then [Press(KeyLeftShift), Sync] else [];
      ghost var shiftUp: seq<Event> := if shift then [Release(KeyLeftShift), Sync] else [];
      ghost var typing := Typing(keyMap, button);
      KeyDown(KeyLeftCtrl);
      if shift {
        KeyDown(KeyLeftShift);
      }
      ghost var e2 := events;
      assert e2 == e0 + Sent(hasDevice, [Press(KeyLeftCtrl), Sync] + shiftDown);
      StringToKeypresses(button);
      if shift {
        KeyUp(KeyLeftShift);
      }
      ghost var e4 := events;
      assert e4 == e2 + Sent(hasDevice, typing + shiftUp);
      KeyUp(KeyLeftCtrl);
      if hasDevice {
        var a, b, c := [Press(KeyLeftCtrl), Sync] + shiftDown, typing + shiftUp, [Release(KeyLeftCtrl), Sync];
        assert CommandEvents(keyMap, button, shift) == a + b + c;
        assert events == e0 + a + b + c;
        Associative(e0, a, b, c);
      } else {
        assert events == e0;
      }
    }

    /** `key_cmd_title`: control and 1. */
    method KeyCmdTitle()
      modifies this
      ensures events == old(events) + Sent(hasDevice, CommandEvents(keyMap, "1", false))
      ensures progressCount == old(progressCount)
    {
      KeyCmd("1", false);
    }

    /** `key_cmd_subheading`: control and 2. */
    method KeyCmdSubheading()
      modifies this
      ensures events == old(events) + Sent(hasDevice, CommandEvents(keyMap, "2", false))
      ensures progressCount == old(progressCount)
    {
      KeyCmd("2", false);
    }

    /** `key_cmd_body`: control and 3. */
    method KeyCmdBody()
      modifies this
      ensures events == old(events) + Sent(hasDevice, CommandEvents(keyMap, "3", false))
      ensures progressCount == old(progressCount)
    {
      KeyCmd("3", false);
    }

    /** `key_cmd_bullet`: control and 4. */
    method KeyCmdBullet()
      modifies this
      ensures events == old(events) + Sent(hasDevice, CommandEvents(keyMap, "4", false))
      ensures progressCount == old(progressCount)
    {
      KeyCmd("4", false);
    }

    /**
      `progress`: type the note and add its length in bytes to the count, wrapping
      at 2^32 as the release build's `u32` does. Nothing happens when progress
      notes are disabled.
    */
    method Progress(note: string)
      requires Valid()
      modifies this
      ensures Valid()
      ensures noDrawProgress ==> events == old(events) && progressCount == old(progressCount)
      ensures !noDrawProgress ==>
        && events == old(events) + Sent(hasDevice, Typing(keyMap, note))
        && progressCount == (old(progressCount) + Utf8Len(note)) % U32_BOUND
    {
      if noDrawProgress {
        return;
      }
      StringToKeypresses(note);
      progressCount := (progressCount + Utf8Len(note) % U32_BOUND) % U32_BOUND;
    }

    /**
      `progress_end`: one backspace for each counted byte, then the count starts
      again from zero. Nothing happens when progress notes are disabled.
    */
    method ProgressEnd()
      requires Valid()
      modifies this
      ensures Valid()
      ensures noDrawProgress ==> events == old(events) && progressCount == old(progressCount)
      ensures !noDrawProgress ==>
        && events == old(events) + Sent(hasDevice, Repeat(Typing(keyMap, "\U{8}"), old(progressCount)))
        && progressCount == 0
    {
      if noDrawProgress {
        return;
      }
      ghost var backspace := Typing(keyMap, "\U{8}");
      for i := 0 to progressCount
        invariant events == old(events) + Sent(hasDevice, Repeat(backspace, i))
        invariant progressCount == old(progressCount)
      {
        StringToKeypresses("\U{8}");
        if hasDevice {
          assert Repeat(backspace, i + 1) == Repeat(backspace, i) + backspace;
          assert events == old(events) + Repeat(backspace, i) + backspace;
        }
      }
      progressCount := 0;
    }

    /** With the key map of `create_key_map`, a backspace is the backspace key alone. */
    lemma BackspaceStroke()
      requires Valid()
      ensures Typing(keyMap, "\U{8}") == [Sync, Press(KeyBackspace), Release(KeyBackspace), Sync]
    {
      MapKeys(keyMap);
      assert "\U{8}"[0] == '\U{8}' && "\U{8}"[1..] == [];
      assert StrokeEvents(KeyStroke(KeyBackspace, false)) == [Press(KeyBackspace), Release(KeyBackspace), Sync];
      assert Typed(keyMap, "\U{8}") == StrokeEvents(keyMap['\U{8}']) + Typed(keyMap, []);
    }

    /** The title shortcut is control and the 1 key, without shift. */
    lemma TitleShortcut()
      requires Valid()
      ensures CommandEvents(keyMap, "1", false) ==
        [Press(KeyLeftCtrl), Sync, Sync, Press(Key1), Release(Key1), Sync, Release(KeyLeftCtrl), Sync]
    {
      MapKeys(keyMap);
      assert "1"[0] == '1' && "1"[1..] == [];
      assert StrokeEvents(KeyStroke(Key1, false)) == [Press(Key1), Release(Key1), Sync];
      assert Typed(keyMap, "1") == StrokeEvents(keyMap['1']) + Typed(keyMap, []);
    }
  }
}
