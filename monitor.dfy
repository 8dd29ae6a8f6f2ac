/**
 * The clipboard change detector (`ClipboardMonitor`). It keeps one fingerprint
 * per content kind and emits an entry when the fingerprint of the kind now on
 * the clipboard differs from the one remembered for that kind. Non-empty text
 * wins over an image. Every poll of the timer is one explicit call to `Check`
 * with what the clipboard holds at that moment.
 */
module Monitor {
  import opened Wrappers
  import opened Strings
  import opened Entries

  /** An Electron `NativeImage` as the monitor reads it: its PNG and data-URL encodings and its size. */
  datatype NativeImage = NativeImage(png: seq<bv8>, dataUrl: string, width: nat, height: nat)

  /** One read of the clipboard: `readText()` and `readImage()`, `None` when the image `isEmpty()`. */
  datatype Clipboard = Clipboard(text: string, image: Option<NativeImage>)

  /** What is fed to the digest: the text itself, or the bytes of the PNG encoding. */
  datatype HashInput = Utf8Text(text: string) | PngBuffer(bytes: seq<bv8>)

  /** The MD5 hex digest, supplied from outside. */
  type Hasher = HashInput -> string

  /**
   * What the model assumes of the digest: different inputs give different
   * digests, and a digest is never the empty string (an MD5 hex digest has 32
   * characters), so it never matches a cleared slot.
   */
  ghost predicate IsDigest(hash: Hasher) {
    && (forall a, b :: hash(a) == hash(b) ==> a == b)
    && (forall a :: hash(a) != "")
  }

  /** The two fingerprint slots; `""` means "nothing remembered". */
  datatype Fingerprints = Fingerprints(lastTextHash: string, lastImageHash: string)

  /** Handle returned by `setInterval`. */
  type TimerId = nat

  /** The content label of an image entry: `[Image WxH]`. */
  function ImageLabel(img: NativeImage): string {
    "[Image " + NatToString(img.width) + "x" + NatToString(img.height) + "]"
  }

  /** `updateHashes`: take the fingerprints of whatever is on the clipboard as the baseline. */
  function Baseline(hash: Hasher, s: Fingerprints, c: Clipboard): (r: Fingerprints)
    ensures r.lastTextHash == if c.text != "" then hash(Utf8Text(c.text)) else s.lastTextHash
    ensures r.lastImageHash == if c.image.Some? then hash(PngBuffer(c.image.value.png)) else s.lastImageHash
  {
    var s1 := if c.text != "" then s.(lastTextHash := hash(Utf8Text(c.text))) else s;
    if c.image.Some? then s1.(lastImageHash := hash(PngBuffer(c.image.value.png))) else s1
  }

  /** One `check`: the new fingerprints and the entry built, if any. */
  function Step(hash: Hasher, s: Fingerprints, c: Clipboard, id: string, now: int): (r: (Fingerprints, Option<Entry>))
    ensures r.1.None? ==> r.0 == s
    ensures r.1.Some? ==> r.1.value.id == id && r.1.value.timestamp == now
    ensures r.1.Some? ==> r.0.lastTextHash == "" || r.0.lastImageHash == ""
  {
    if c.text != "" then
      var h := hash(Utf8Text(c.text));
      if h != s.lastTextHash then
        (Fingerprints(h, ""), Some(Entry(id, c.text, TextKind, now, None)))
      else (s, None)
    else if c.image.Some? then
      var img := c.image.value;
      var h := hash(PngBuffer(img.png));
      if h != s.lastImageHash then
        (Fingerprints("", h), Some(Entry(id, ImageLabel(img), ImageKind, now, Some(img.dataUrl))))
      else (s, None)
    else (s, None)
  }

  class ClipboardMonitor {
    const hash: Hasher
    var intervalId: Option<TimerId>
    var lastTextHash: string
    var lastImageHash: string
    /** Whether `start` has registered a change callback. */
    var hasCallback: bool

    function Slots(): Fingerprints
      reads this`lastTextHash, this`lastImageHash
    {
      Fingerprints(lastTextHash, lastImageHash)
    }

    constructor (hash: Hasher)
      ensures this.hash == hash
      ensures intervalId == None && !hasCallback
      ensures Slots() == Fingerprints("", "")
    {
      this.hash := hash;
      intervalId := None;
      lastTextHash := "";
      lastImageHash := "";
      hasCallback := false;
    }

    /**
     * `start`: register the callback, take the baseline from the current
     * clipboard and keep the new timer's handle. A previous handle is
     * overwritten without being cleared.
     */
    method Start(c: Clipboard, timer: TimerId)
      modifies this
      ensures hasCallback
      ensures Slots() == Baseline(hash, old(Slots()), c)
      ensures intervalId == Some(timer)
    {
      hasCallback := true;
      UpdateHashes(c);
      intervalId := Some(timer);
    }

    /** `stop`: clear the timer if there is one; calling it again changes nothing. */
    method Stop()
      modifies this`intervalId
      ensures intervalId == None
    {
      if intervalId.Some? {
        intervalId := None;
      }
    }

    /** `updateHashes`: only the slots of the kinds present are overwritten. */
    method UpdateHashes(c: Clipboard)
      modifies this`lastTextHash, this`lastImageHash
      ensures Slots() == Baseline(hash, old(Slots()), c)
    {
      if c.text != "" {
        lastTextHash := hash(Utf8Text(c.text));
      }
      if c.image.Some? {
        lastImageHash := hash(PngBuffer(c.image.value.png));
      }
    }

    /** `emitEntry`: the entry reaches the callback only when one is registered. */
    function EmitEntry(entry: Entry): (handed: Option<Entry>)
      reads this`hasCallback
      ensures handed.Some? <==> hasCallback
      ensures handed.Some? ==> handed.value == entry
    {
      if hasCallback then Some(entry) else None
    }

    /**
     * `check`: one poll. `id` and `now` stand for `randomUUID()` and
     * `Date.now()`. Returns the entry handed to the callback.
     */
    method Check(c: Clipboard, id: string, now: int) returns (handed: Option<Entry>)
      modifies this`lastTextHash, this`lastImageHash
      ensures Slots() == Step(hash, old(Slots()), c, id, now).0
      ensures handed == (if hasCallback then Step(hash, old(Slots()), c, id, now).1 else None)
    {
      handed := None;
      if c.text != "" {
        var textHash := hash(Utf8Text(c.text));
        if textHash != lastTextHash {
          lastTextHash := textHash;
          lastImageHash := "";
          handed := EmitEntry(Entry(id, c.text, TextKind, now, None));
        }
      } else if c.image.Some? {
        var image := c.image.value;
        var imageHash := hash(PngBuffer(image.png));
        if imageHash != lastImageHash {
          lastImageHash := imageHash;
          lastTextHash := "";
          var dataUrl := image.dataUrl;
          handed := EmitEntry(Entry(id, ImageLabel(image), ImageKind, now, Some(dataUrl)));
        }
      }
    }
  }

  // ---------------------------------------------------------------------
  // Properties of one poll

  /** Right after the baseline is taken, polling the same clipboard emits nothing and changes nothing. */
  lemma BaselineSilencesFirstCheck(hash: Hasher, s: Fingerprints, c: Clipboard, id: string, now: int)
    ensures Step(hash, Baseline(hash, s, c), c, id, now) == (Baseline(hash, s, c), None)
  {
  }

  /** A poll emits exactly when the fingerprint of the winning kind differs from its slot. */
  lemma EmitsExactlyOnChange(hash: Hasher, s: Fingerprints, c: Clipboard, id: string, now: int)
    ensures Step(hash, s, c, id, now).1.Some? <==>
      || (c.text != "" && hash(Utf8Text(c.text)) != s.lastTextHash)
      || (c.text == "" && c.image.Some? && hash(PngBuffer(c.image.value.png)) != s.lastImageHash)
    ensures Step(hash, s, c, id, now).1.None? ==> Step(hash, s, c, id, now).0 == s
  {
  }

  /** Non-empty text wins: the image is not looked at and any entry is a text entry. */
  lemma TextTakesPrecedence(hash: Hasher, s: Fingerprints, c: Clipboard, id: string, now: int)
    requires c.text != ""
    ensures Step(hash, s, c, id, now) == Step(hash, s, Clipboard(c.text, None), id, now)
    ensures Step(hash, s, c, id, now).1.Some? ==> Step(hash, s, c, id, now).1.value.kind == TextKind
  {
  }

  /** An image entry is only produced when the text is empty. */
  lemma ImageOnlyWithoutText(hash: Hasher, s: Fingerprints, c: Clipboard, id: string, now: int)
    requires Step(hash, s, c, id, now).1.Some? && Step(hash, s, c, id, now).1.value.kind == ImageKind
    ensures c.text == "" && c.image.Some?
  {
  }

  /** Empty text and no image: nothing is emitted and the slots stay as they were. */
  lemma EmptyClipboardIsNoop(hash: Hasher, s: Fingerprints, id: string, now: int)
    ensures Step(hash, s, Clipboard("", None), id, now) == (s, None)
  {
  }

  /** A second poll of the same content emits nothing and leaves both slots alone. */
  lemma RepeatIsSilent(hash: Hasher, s: Fingerprints, c: Clipboard, id: string, now: int, id': string, now': int)
    ensures var s1 := Step(hash, s, c, id, now).0;
      Step(hash, s1, c, id', now') == (s1, None)
  {
  }

  /**
   * Accepting content stores its fingerprint in its own slot and clears the
   * other slot; the entry carries the text itself, or the `[Image WxH]` label
   * and the data-URL preview.
   */
  lemma AcceptedContentShape(hash: Hasher, s: Fingerprints, c: Clipboard, id: string, now: int)
    requires Step(hash, s, c, id, now).1.Some?
    ensures var (s', e) := Step(hash, s, c, id, now);
      && e.value.id == id && e.value.timestamp == now
      && (e.value.kind == TextKind ==>
            s' == Fingerprints(hash(Utf8Text(c.text)), "") && e.value.content == c.text && e.value.preview == None)
      && (e.value.kind == ImageKind ==>
            c.image.Some? && s' == Fingerprints("", hash(PngBuffer(c.image.value.png)))
            && e.value.content == ImageLabel(c.image.value) && e.value.preview == Some(c.image.value.dataUrl))
  {
  }

  // ---------------------------------------------------------------------
  // Runs of polls

  /** One poll: what the clipboard held, and the id and clock reading the entry would get. */
  datatype Poll = Poll(clipboard: Clipboard, id: string, now: int)

  /** The fingerprints after a run of polls and the entries emitted, oldest first. */
  function Run(hash: Hasher, s: Fingerprints, polls: seq<Poll>): (r: (Fingerprints, seq<Entry>))
    ensures |r.1| <= |polls|
    ensures |r.1| == 0 ==> r.0 == s
    decreases |polls|
  {
    if |polls| == 0 then (s, [])
    else
      var first := Step(hash, s, polls[0].clipboard, polls[0].id, polls[0].now);
      var rest := Run(hash, first.0, polls[1..]);
      (rest.0, (if first.1.Some? then [first.1.value] else []) + rest.1)
  }

  /** Once a poll of some content has emitted nothing, polling it again and again emits nothing. */
  lemma {:induction false} UnchangedContentStaysSilent(hash: Hasher, s: Fingerprints, c: Clipboard, polls: seq<Poll>)
    requires forall i :: 0 <= i < |polls| ==> polls[i].clipboard == c
    requires forall id, now :: Step(hash, s, c, id, now) == (s, None)
    ensures Run(hash, s, polls) == (s, [])
    decreases |polls|
  {
    if |polls| > 0 {
      assert polls[0].clipboard == c;
      assert Step(hash, s, c, polls[0].id, polls[0].now) == (s, None);
      UnchangedContentStaysSilent(hash, s, c, polls[1..]);
      assert Run(hash, s, polls).1 == [];
    }
  }

  /** The same content over any number of polls yields at most one entry, from the first poll. */
  lemma IdenticalPollsEmitAtMostOnce(hash: Hasher, s: Fingerprints, c: Clipboard, polls: seq<Poll>)
    requires forall i :: 0 <= i < |polls| ==> polls[i].clipboard == c
    ensures |Run(hash, s, polls).1| <= 1
    ensures |polls| > 0 ==>
      (Run(hash, s, polls).1 ==
         if Step(hash, s, c, polls[0].id, polls[0].now).1.Some?
         then [Step(hash, s, c, polls[0].id, polls[0].now).1.value] else [])
  {
    if |polls| > 0 {
      var s1 := Step(hash, s, c, polls[0].id, polls[0].now).0;
      forall id, now ensures Step(hash, s1, c, id, now) == (s1, None) {
        RepeatIsSilent(hash, s, c, polls[0].id, polls[0].now, id, now);
      }
      UnchangedContentStaysSilent(hash, s1, c, polls[1..]);
    }
  }

  /** Only the latest fingerprint per kind is kept: text A, then B, then A again gives three entries. */
  lemma TextRevisitReemits(hash: Hasher, s: Fingerprints, a: string, b: string, ids: seq<string>, nows: seq<int>)
    requires IsDigest(hash)
    requires a != "" && b != "" && a != b
    requires |ids| == 3 && |nows| == 3
    requires hash(Utf8Text(a)) != s.lastTextHash
    ensures var polls := [Poll(Clipboard(a, None), ids[0], nows[0]),
                          Poll(Clipboard(b, None), ids[1], nows[1]),
                          Poll(Clipboard(a, None), ids[2], nows[2])];
      Run(hash, s, polls).1 == [Entry(ids[0], a, TextKind, nows[0], None),
                                Entry(ids[1], b, TextKind, nows[1], None),
                                Entry(ids[2], a, TextKind, nows[2], None)]
  {
    var polls := [Poll(Clipboard(a, None), ids[0], nows[0]),
                  Poll(Clipboard(b, None), ids[1], nows[1]),
                  Poll(Clipboard(a, None), ids[2], nows[2])];
    var s1 := Fingerprints(hash(Utf8Text(a)), "");
    var s2 := Fingerprints(hash(Utf8Text(b)), "");
    assert hash(Utf8Text(a)) != hash(Utf8Text(b));
    assert polls[1..][1..] == polls[2..];
    assert polls[2..][1..] == [];
    assert Run(hash, s2, polls[2..]).1 == [Entry(ids[2], a, TextKind, nows[2], None)];
    assert Run(hash, s1, polls[1..]).1 == [Entry(ids[1], b, TextKind, nows[1], None), Entry(ids[2], a, TextKind, nows[2], None)];
  }

  /** An image in between clears the text slot: text A, an image, text A again gives A twice. */
  lemma ImageBetweenReemitsText(hash: Hasher, s: Fingerprints, a: string, img: NativeImage, ids: seq<string>, nows: seq<int>)
    requires IsDigest(hash)
    requires a != ""
    requires |ids| == 3 && |nows| == 3
    requires hash(Utf8Text(a)) != s.lastTextHash
    ensures var polls := [Poll(Clipboard(a, None), ids[0], nows[0]),
                          Poll(Clipboard("", Some(img)), ids[1], nows[1]),
                          Poll(Clipboard(a, None), ids[2], nows[2])];
      Run(hash, s, polls).1 == [Entry(ids[0], a, TextKind, nows[0], None),
                                Entry(ids[1], ImageLabel(img), ImageKind, nows[1], Some(img.dataUrl)),
                                Entry(ids[2], a, TextKind, nows[2], None)]
  {
    var polls := [Poll(Clipboard(a, None), ids[0], nows[0]),
                  Poll(Clipboard("", Some(img)), ids[1], nows[1]),
                  Poll(Clipboard(a, None), ids[2], nows[2])];
    var s1 := Fingerprints(hash(Utf8Text(a)), "");
    var s2 := Fingerprints("", hash(PngBuffer(img.png)));
    assert hash(PngBuffer(img.png)) != "";
    assert hash(Utf8Text(a)) != "";
    assert polls[1..][1..] == polls[2..];
    assert polls[2..][1..] == [];
    assert Run(hash, s2, polls[2..]).1 == [Entry(ids[2], a, TextKind, nows[2], None)];
    assert Run(hash, s1, polls[1..]).1 == [Entry(ids[1], ImageLabel(img), ImageKind, nows[1], Some(img.dataUrl)),
                                           Entry(ids[2], a, TextKind, nows[2], None)];
  }
}
