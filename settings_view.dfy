/**
 * The settings panel: recording a global shortcut from one key press, the
 * range check before saving the history limit, and the glyph rendering of a
 * shortcut.
 */
module SettingsView {
  import opened Wrappers
  import opened Strings
  import opened Sequences
  import opened Store

  /** The fields of a keyboard event the recorder looks at. */
  datatype KeyEvent = KeyEvent(metaKey: bool, ctrlKey: bool, altKey: bool, shiftKey: bool, key: string)

  const ModifierKeyNames: seq<string> := ["META", "CONTROL", "ALT", "SHIFT"]

  /** The key part of a shortcut: the upper-cased key, kept only when it is one character. */
  function KeyPart(key: string): (r: Option<string>)
    ensures r.Some? <==> |key| == 1
    ensures r.Some? ==> r.value == Upper(key)
  {
    var k := Upper(key);
    if |k| == 1 && k !in ModifierKeyNames then Some(k) else None
  }

  /** The parts pushed for one key press, in push order. */
  function ShortcutKeys(e: KeyEvent): (r: seq<string>)
    ensures |r| == ModifierCount(e) + (if |e.key| == 1 then 1 else 0)
  {
    (if e.metaKey then ["CommandOrControl"] else [])
    + (if e.ctrlKey && !e.metaKey then ["Control"] else [])
    + (if e.altKey then ["Option"] else [])
    + (if e.shiftKey then ["Shift"] else [])
    + (if KeyPart(e.key).Some? then [KeyPart(e.key).value] else [])
  }

  function ModifierCount(e: KeyEvent): nat {
    (if e.metaKey then 1 else 0) + (if e.ctrlKey && !e.metaKey then 1 else 0)
    + (if e.altKey then 1 else 0) + (if e.shiftKey then 1 else 0)
  }

  lemma OptionalSubsequence(b: bool, x: string)
    ensures IsSubsequence(if b then [x] else [], [x])
  {
    if b { SubsequenceRefl([x]); }
  }

  /** The parts always come in the order CommandOrControl, Control, Option, Shift, key. */
  lemma ShortcutKeysInOrder(e: KeyEvent)
    ensures IsSubsequence(ShortcutKeys(e), ["CommandOrControl", "Control", "Option", "Shift", Upper(e.key)])
  {
    var m: seq<string> := if e.metaKey then ["CommandOrControl"] else [];
    var c: seq<string> := if e.ctrlKey && !e.metaKey then ["Control"] else [];
    var o: seq<string> := if e.altKey then ["Option"] else [];
    var s: seq<string> := if e.shiftKey then ["Shift"] else [];
    var k: seq<string> := if KeyPart(e.key).Some? then [KeyPart(e.key).value] else [];
    OptionalSubsequence(e.metaKey, "CommandOrControl");
    OptionalSubsequence(e.ctrlKey && !e.metaKey, "Control");
    OptionalSubsequence(e.altKey, "Option");
    OptionalSubsequence(e.shiftKey, "Shift");
    OptionalSubsequence(KeyPart(e.key).Some?, Upper(e.key));
    SubsequenceConcat(m, ["CommandOrControl"], c, ["Control"]);
    assert ["CommandOrControl"] + ["Control"] == ["CommandOrControl", "Control"];
    SubsequenceConcat(m + c, ["CommandOrControl", "Control"], o, ["Option"]);
    assert ["CommandOrControl", "Control"] + ["Option"] == ["CommandOrControl", "Control", "Option"];
    SubsequenceConcat(m + c + o, ["CommandOrControl", "Control", "Option"], s, ["Shift"]);
    assert ["CommandOrControl", "Control", "Option"] + ["Shift"] == ["CommandOrControl", "Control", "Option", "Shift"];
    SubsequenceConcat(m + c + o + s, ["CommandOrControl", "Control", "Option", "Shift"], k, [Upper(e.key)]);
    assert ["CommandOrControl", "Control", "Option", "Shift"] + [Upper(e.key)]
        == ["CommandOrControl", "Control", "Option", "Shift", Upper(e.key)];
    assert ShortcutKeys(e) == m + c + o + s + k;
  }

  /**
   * Each modifier name is pushed exactly when its modifier is held (`Control`
   * only without meta); the key part, when pushed, comes last.
   */
  lemma ShortcutKeysParts(e: KeyEvent)
    ensures "CommandOrControl" in ShortcutKeys(e) <==> e.metaKey
    ensures "Control" in ShortcutKeys(e) <==> e.ctrlKey && !e.metaKey
    ensures "Option" in ShortcutKeys(e) <==> e.altKey
    ensures "Shift" in ShortcutKeys(e) <==> e.shiftKey
    ensures |e.key| == 1 ==> ShortcutKeys(e)[|ShortcutKeys(e)| - 1] == Upper(e.key)
  {
  }

  /** Two modifiers without a usable key are already a shortcut. */
  lemma TwoModifiersQualify()
    ensures ShortcutKeys(KeyEvent(true, false, false, true, "Meta")) == ["CommandOrControl", "Shift"]
    ensures Join(ShortcutKeys(KeyEvent(true, false, false, true, "Meta")), "+") == "CommandOrControl+Shift"
  {
    assert KeyPart("Meta").None?;
  }

  /** The recorded accelerator splits back at `+` into its parts, unless the key itself is `+`. */
  lemma RecordedShortcutSplits(e: KeyEvent)
    requires |ShortcutKeys(e)| > 1 && e.key != "+"
    ensures Split(Join(ShortcutKeys(e), "+"), '+') == ShortcutKeys(e)
  {
    var keys := ShortcutKeys(e);
    forall i | 0 <= i < |keys| ensures '+' !in keys[i] {
      if |e.key| == 1 && i == |keys| - 1 {
        ShortcutKeysParts(e);
        assert keys[i] == Upper(e.key) == [UpperChar(e.key[0])];
        assert e.key == [e.key[0]];
      }
    }
    SplitJoin(keys, '+');
  }

  /** The `handleSave` check: a parsed number in [10, 1000], both ends included. */
  function AcceptedMaxHistory(parsed: Option<int>): (r: Option<int>)
    ensures r.Some? <==> parsed.Some? && 10 <= parsed.value <= 1000
    ensures r.Some? ==> r == parsed
  {
    match parsed
    case None => None
    case Some(n) => if n < 10 || n > 1000 then None else Some(n)
  }

  /** The glyph form of an accelerator: the first of each modifier name replaced, every `+` a space. */
  function FormatShortcut(s: string): (r: string)
    ensures '+' !in r
  {
    var s1 := ReplaceFirst(s, "CommandOrControl", "⌘");
    var s2 := ReplaceFirst(s1, "Control", "⌃");
    var s3 := ReplaceFirst(s2, "Option", "⌥");
    var s4 := ReplaceFirst(s3, "Shift", "⇧");
    ReplaceAllChar(s4, '+', ' ')
  }

  lemma AbsentFirstChar(s: string, pat: string)
    requires |pat| > 0 && pat[0] !in s
    ensures IndexOf(s, pat).None?
  {
  }

  /** The default shortcut is shown as `⌘ ⌥ V`. */
  lemma FormatDefaultShortcut(s: string)
    requires s == DefaultSettings.shortcut
    ensures FormatShortcut(s) == "⌘ ⌥ V"
  {
    var s1 := ReplaceFirst(s, "CommandOrControl", "⌘");
    assert s1 == "⌘+Option+V" by { ReplaceCommand(s); }
    var s2 := ReplaceFirst(s1, "Control", "⌃");
    assert s2 == s1 by { AbsentFirstChar(s1, "Control"); }
    var s3 := ReplaceFirst(s2, "Option", "⌥");
    assert s3 == "⌘+⌥+V" by { ReplaceOption(s2); }
    var s4 := ReplaceFirst(s3, "Shift", "⇧");
    assert s4 == s3 by { AbsentFirstChar(s3, "Shift"); }
    assert FormatShortcut(s) == ReplaceAllChar(s4, '+', ' ');
    ReplacePlus(s4);
  }

  lemma ReplaceCommand(s: string)
    requires s == "CommandOrControl+Option+V"
    ensures ReplaceFirst(s, "CommandOrControl", "⌘") == "⌘+Option+V"
  {
    assert OccursAt(s, "CommandOrControl", 0);
    assert s[16..] == "+Option+V";
  }

  lemma ReplaceOption(s1: string)
    requires s1 == "⌘+Option+V"
    ensures ReplaceFirst(s1, "Option", "⌥") == "⌘+⌥+V"
  {
    assert OccursAt(s1, "Option", 2);
    assert s1[0..6][0] != "Option"[0] && s1[1..7][0] != "Option"[0];
    assert s1[..2] == "⌘+" && s1[8..] == "+V";
  }

  lemma ReplacePlus(s3: string)
    requires s3 == "⌘+⌥+V"
    ensures ReplaceAllChar(s3, '+', ' ') == "⌘ ⌥ V"
  {
    var r := ReplaceAllChar(s3, '+', ' ');
    assert |r| == 5;
    assert r[0] == '⌘' && r[1] == ' ' && r[2] == '⌥' && r[3] == ' ' && r[4] == 'V';
  }

  /** What the panel shows for a recorded shortcut: each modifier as its glyph, the key as recorded. */
  function GlyphKeys(e: KeyEvent): seq<string> {
    (if e.metaKey then ["⌘"] else [])
    + (if e.ctrlKey && !e.metaKey then ["⌃"] else [])
    + (if e.altKey then ["⌥"] else [])
    + (if e.shiftKey then ["⇧"] else [])
    + (if KeyPart(e.key).Some? then [KeyPart(e.key).value] else [])
  }

  /** Every part is shorter than `n` characters, so none can contain a pattern of length `n`. */
  ghost predicate AllShorter(parts: seq<string>, n: nat) {
    forall i :: 0 <= i < |parts| ==> |parts[i]| < n
  }

  lemma ShorterConcat(a: seq<string>, b: seq<string>, n: nat)
    requires AllShorter(a, n) && AllShorter(b, n)
    ensures AllShorter(a + b, n)
  {
  }

  /** A `replace` pass leaves alone parts that are all shorter than the pattern. */
  lemma {:induction false} ReplacePassSkips(y: seq<string>, pat: string, rep: string)
    requires AllShorter(y, |pat|)
    ensures ReplaceInFirstPart(y, pat, rep) == y
    decreases |y|
  {
    if |y| > 0 {
      assert !OccursAt(y[0], pat, 0);
      ReplacePassSkips(y[1..], pat, rep);
      assert [y[0]] + y[1..] == y;
    }
  }

  /**
   * A `replace` pass over parts shorter than the pattern, then the pattern
   * itself, then anything: the pattern part becomes `rep`.
   */
  lemma {:induction false} ReplacePassHits(x: seq<string>, y: seq<string>, pat: string, rep: string)
    requires AllShorter(x, |pat|)
    ensures ReplaceInFirstPart(x + [pat] + y, pat, rep) == x + [rep] + y
    decreases |x|
  {
    if |x| > 0 {
      assert !OccursAt(x[0], pat, 0);
      ReplacePassHits(x[1..], y, pat, rep);
      assert (x + [pat] + y)[1..] == x[1..] + [pat] + y;
      assert [x[0]] + (x[1..] + [rep] + y) == x + [rep] + y;
    } else {
      assert OccursAt(pat, pat, 0);
      IndexOfIs(pat, pat, 0);
      assert pat[..0] + rep + pat[|pat|..] == rep;
      assert x + [pat] + y == [pat] + y && ([pat] + y)[1..] == y;
    }
  }

  /** A part that is present only when its key is held. */
  function Opt(held: bool, part: string): seq<string> {
    if held then [part] else []
  }

  /** The key part, when there is one. */
  function KeyParts(e: KeyEvent): seq<string> {
    if KeyPart(e.key).Some? then [KeyPart(e.key).value] else []
  }

  lemma OptShorter(held: bool, part: string, n: nat)
    requires |part| < n
    ensures AllShorter(Opt(held, part), n)
  {
  }

  lemma KeyPartsShorter(e: KeyEvent, n: nat)
    requires 1 < n
    ensures AllShorter(KeyParts(e), n)
  {
  }

  /** One pass of `formatShortcut` over the parts: the one modifier part, if present, becomes its glyph. */
  lemma ReplacePass(x: seq<string>, held: bool, y: seq<string>, pat: string, rep: string)
    requires AllShorter(x, |pat|)
    requires !held ==> AllShorter(y, |pat|)
    ensures ReplaceInFirstPart(x + Opt(held, pat) + y, pat, rep) == x + Opt(held, rep) + y
  {
    if held {
      ReplacePassHits(x, y, pat, rep);
    } else {
      assert x + [] + y == x + y;
      ShorterConcat(x, y, |pat|);
      ReplacePassSkips(x + y, pat, rep);
    }
  }

  /** The parts of a recorded shortcut, with `m`, `c`, `o` and `s` written for its four modifiers. */
  function PartsWith(e: KeyEvent, m: string, c: string, o: string, s: string): seq<string> {
    Opt(e.metaKey, m) + Opt(e.ctrlKey && !e.metaKey, c) + Opt(e.altKey, o) + Opt(e.shiftKey, s) + KeyParts(e)
  }

  /** The ways a pass splits the parts around the one it replaces. */
  lemma Regroup(a: seq<string>, b: seq<string>, c: seq<string>, d: seq<string>, k: seq<string>)
    ensures a + b + c + d + k == [] + a + (b + c + d + k)
    ensures a + b + c + d + k == a + b + (c + d + k)
    ensures a + b + c + d + k == (a + b) + c + (d + k)
    ensures a + b + c + d + k == (a + b + c) + d + k
  {
  }

  /** The first `replace` pass: the meta part, longer than every other part, becomes `rep`. */
  lemma MetaPass(e: KeyEvent, m: string, c: string, o: string, s: string, rep: string)
    requires 1 < |m| && |c| < |m| && |o| < |m| && |s| < |m|
    ensures ReplaceInFirstPart(PartsWith(e, m, c, o, s), m, rep) == PartsWith(e, rep, c, o, s)
  {
    var y := Opt(e.ctrlKey && !e.metaKey, c) + Opt(e.altKey, o) + Opt(e.shiftKey, s) + KeyParts(e);
    OptShorter(e.ctrlKey && !e.metaKey, c, |m|);
    OptShorter(e.altKey, o, |m|);
    OptShorter(e.shiftKey, s, |m|);
    KeyPartsShorter(e, |m|);
    ShorterConcat(Opt(e.ctrlKey && !e.metaKey, c), Opt(e.altKey, o), |m|);
    ShorterConcat(Opt(e.ctrlKey && !e.metaKey, c) + Opt(e.altKey, o), Opt(e.shiftKey, s), |m|);
    ShorterConcat(Opt(e.ctrlKey && !e.metaKey, c) + Opt(e.altKey, o) + Opt(e.shiftKey, s), KeyParts(e), |m|);
    ReplacePass([], e.metaKey, y, m, rep);
    Regroup(Opt(e.metaKey, m), Opt(e.ctrlKey && !e.metaKey, c), Opt(e.altKey, o), Opt(e.shiftKey, s), KeyParts(e));
    Regroup(Opt(e.metaKey, rep), Opt(e.ctrlKey && !e.metaKey, c), Opt(e.altKey, o), Opt(e.shiftKey, s), KeyParts(e));
  }

  /** The second pass: the control part, longer than the parts after it and than the meta part, becomes `rep`. */
  lemma ControlPass(e: KeyEvent, m: string, c: string, o: string, s: string, rep: string)
    requires 1 < |c| && |m| < |c| && |o| < |c| && |s| < |c|
    ensures ReplaceInFirstPart(PartsWith(e, m, c, o, s), c, rep) == PartsWith(e, m, rep, o, s)
  {
    var x := Opt(e.metaKey, m);
    var y := Opt(e.altKey, o) + Opt(e.shiftKey, s) + KeyParts(e);
    OptShorter(e.metaKey, m, |c|);
    OptShorter(e.altKey, o, |c|);
    OptShorter(e.shiftKey, s, |c|);
    KeyPartsShorter(e, |c|);
    ShorterConcat(Opt(e.altKey, o), Opt(e.shiftKey, s), |c|);
    ShorterConcat(Opt(e.altKey, o) + Opt(e.shiftKey, s), KeyParts(e), |c|);
    ReplacePass(x, e.ctrlKey && !e.metaKey, y, c, rep);
    Regroup(Opt(e.metaKey, m), Opt(e.ctrlKey && !e.metaKey, c), Opt(e.altKey, o), Opt(e.shiftKey, s), KeyParts(e));
    Regroup(Opt(e.metaKey, m), Opt(e.ctrlKey && !e.metaKey, rep), Opt(e.altKey, o), Opt(e.shiftKey, s), KeyParts(e));
  }

  /** The third pass: the alt part becomes `rep`. */
  lemma AltPass(e: KeyEvent, m: string, c: string, o: string, s: string, rep: string)
    requires 1 < |o| && |m| < |o| && |c| < |o| && |s| < |o|
    ensures ReplaceInFirstPart(PartsWith(e, m, c, o, s), o, rep) == PartsWith(e, m, c, rep, s)
  {
    var x := Opt(e.metaKey, m) + Opt(e.ctrlKey && !e.metaKey, c);
    var y := Opt(e.shiftKey, s) + KeyParts(e);
    OptShorter(e.metaKey, m, |o|);
    OptShorter(e.ctrlKey && !e.metaKey, c, |o|);
    ShorterConcat(Opt(e.metaKey, m), Opt(e.ctrlKey && !e.metaKey, c), |o|);
    OptShorter(e.shiftKey, s, |o|);
    KeyPartsShorter(e, |o|);
    ShorterConcat(Opt(e.shiftKey, s), KeyParts(e), |o|);
    ReplacePass(x, e.altKey, y, o, rep);
    Regroup(Opt(e.metaKey, m), Opt(e.ctrlKey && !e.metaKey, c), Opt(e.altKey, o), Opt(e.shiftKey, s), KeyParts(e));
    Regroup(Opt(e.metaKey, m), Opt(e.ctrlKey && !e.metaKey, c), Opt(e.altKey, rep), Opt(e.shiftKey, s), KeyParts(e));
  }

  /** The fourth pass: the shift part becomes `rep`. */
  lemma ShiftPass(e: KeyEvent, m: string, c: string, o: string, s: string, rep: string)
    requires 1 < |s| && |m| < |s| && |c| < |s| && |o| < |s|
    ensures ReplaceInFirstPart(PartsWith(e, m, c, o, s), s, rep) == PartsWith(e, m, c, o, rep)
  {
    var x := Opt(e.metaKey, m) + Opt(e.ctrlKey && !e.metaKey, c) + Opt(e.altKey, o);
    var y := KeyParts(e);
    OptShorter(e.metaKey, m, |s|);
    OptShorter(e.ctrlKey && !e.metaKey, c, |s|);
    OptShorter(e.altKey, o, |s|);
    ShorterConcat(Opt(e.metaKey, m), Opt(e.ctrlKey && !e.metaKey, c), |s|);
    ShorterConcat(Opt(e.metaKey, m) + Opt(e.ctrlKey && !e.metaKey, c), Opt(e.altKey, o), |s|);
    KeyPartsShorter(e, |s|);
    ReplacePass(x, e.shiftKey, y, s, rep);
    Regroup(Opt(e.metaKey, m), Opt(e.ctrlKey && !e.metaKey, c), Opt(e.altKey, o), Opt(e.shiftKey, s), KeyParts(e));
    Regroup(Opt(e.metaKey, m), Opt(e.ctrlKey && !e.metaKey, c), Opt(e.altKey, o), Opt(e.shiftKey, rep), KeyParts(e));
  }

  /** No part of a recorded shortcut whose key is not `+` contains `+`. */
  lemma GlyphPartsLackPlus(e: KeyEvent)
    requires e.key != "+"
    ensures forall i :: 0 <= i < |GlyphKeys(e)| ==> '+' !in GlyphKeys(e)[i]
  {
    var p := GlyphKeys(e);
    forall i | 0 <= i < |p| ensures '+' !in p[i] {
      if |e.key| == 1 && i == |p| - 1 {
        assert p[i] == Upper(e.key) == [UpperChar(e.key[0])];
        assert e.key == [e.key[0]];
      }
    }
  }

  /**
   * The glyph form of any recorded shortcut whose key is not `+`: each
   * modifier becomes its glyph, the key stays, and the parts are separated
   * by spaces.
   */
  lemma FormatRecordedShortcut(e: KeyEvent)
    requires e.key != "+"
    ensures FormatShortcut(Join(ShortcutKeys(e), "+")) == Join(GlyphKeys(e), " ")
  {
    var p0 := PartsWith(e, "CommandOrControl", "Control", "Option", "Shift");
    var p1 := PartsWith(e, "⌘", "Control", "Option", "Shift");
    var p2 := PartsWith(e, "⌘", "⌃", "Option", "Shift");
    var p3 := PartsWith(e, "⌘", "⌃", "⌥", "Shift");
    var p4 := PartsWith(e, "⌘", "⌃", "⌥", "⇧");
    assert ShortcutKeys(e) == p0;
    assert GlyphKeys(e) == p4;
    MetaPass(e, "CommandOrControl", "Control", "Option", "Shift", "⌘");
    ControlPass(e, "⌘", "Control", "Option", "Shift", "⌃");
    AltPass(e, "⌘", "⌃", "Option", "Shift", "⌥");
    ShiftPass(e, "⌘", "⌃", "⌥", "Shift", "⇧");
    ReplaceFirstJoin(p0, '+', "CommandOrControl", "⌘");
    ReplaceFirstJoin(p1, '+', "Control", "⌃");
    ReplaceFirstJoin(p2, '+', "Option", "⌥");
    ReplaceFirstJoin(p3, '+', "Shift", "⇧");
    GlyphPartsLackPlus(e);
    ReplaceSeparator(p4, '+', ' ');
  }

  /** The panel's state: the shortcut shown, whether a key press is being recorded, and the saved flag. */
  class SettingsPanel {
    var shortcut: string
    var isRecording: bool
    var saved: bool

    /** The panel after its settings have loaded. */
    constructor (loaded: Settings)
      ensures shortcut == loaded.shortcut && !isRecording && !saved
    {
      shortcut := loaded.shortcut;
      isRecording := false;
      saved := false;
    }

    /** A click on the shortcut field starts recording. */
    method StartRecording()
      modifies this`isRecording
      ensures isRecording
    {
      isRecording := true;
    }

    /** Leaving the shortcut field stops recording. */
    method StopRecording()
      modifies this`isRecording
      ensures !isRecording
    {
      isRecording := false;
    }

    /**
     * `handleKeyDown`: while recording, a press with at least two parts becomes
     * the new shortcut and ends recording; anything else changes nothing.
     */
    method HandleKeyDown(e: KeyEvent)
      modifies this`shortcut, this`isRecording
      ensures !old(isRecording) ==> shortcut == old(shortcut) && !isRecording
      ensures old(isRecording) && |ShortcutKeys(e)| > 1 ==> shortcut == Join(ShortcutKeys(e), "+") && !isRecording
      ensures old(isRecording) && |ShortcutKeys(e)| <= 1 ==> shortcut == old(shortcut) && isRecording
    {
      if !isRecording {
        return;
      }
      var keys: seq<string> := [];
      if e.metaKey { keys := keys + ["CommandOrControl"]; }
      if e.ctrlKey && !e.metaKey { keys := keys + ["Control"]; }
      if e.altKey { keys := keys + ["Option"]; }
      if e.shiftKey { keys := keys + ["Shift"]; }
      var key := Upper(e.key);
      if |key| == 1 && key !in ModifierKeyNames {
        keys := keys + [key];
      }
      assert keys == ShortcutKeys(e);
      if |keys| > 1 {
        shortcut := Join(keys, "+");
        isRecording := false;
      }
    }

    /**
     * `handleSave`: a rejected limit makes no call; an accepted one sends both
     * fields and sets the saved flag.
     */
    method HandleSave(parsed: Option<int>) returns (request: Option<PartialSettings>)
      modifies this`saved
      ensures AcceptedMaxHistory(parsed).None? ==> request.None? && saved == old(saved)
      ensures AcceptedMaxHistory(parsed).Some? ==> request == Some(PartialSettings(parsed, Some(shortcut))) && saved
    {
      if parsed.None? || parsed.value < 10 || parsed.value > 1000 {
        return None;
      }
      request := Some(PartialSettings(parsed, Some(shortcut)));
      saved := true;
    }
  }
}
