/**
 * The main process's in-memory history: newest first, bounded by the
 * `maxHistory` read once when the monitor is set up.
 */
module History {
  import opened Entries

  /** The list after the change callback ran: `unshift`, then at most one `pop`. */
  function Inserted(h: seq<Entry>, entry: Entry, maxHistory: int): (r: seq<Entry>)
    ensures |h| <= |r| <= |h| + 1
    ensures |r| > 0 ==> r[0] == entry
    ensures forall x :: x in r ==> x == entry || x in h
  {
    var grown := [entry] + h;
    if |grown| > maxHistory then grown[..|grown| - 1] else grown
  }

  /**
   * An insert keeps a prefix of `[entry] + h`: the new entry first, the old
   * entries behind it in their old order, and at most the oldest one dropped.
   */
  lemma InsertKeepsNewestFirst(h: seq<Entry>, entry: Entry, maxHistory: int)
    ensures var r := Inserted(h, entry, maxHistory);
      && |r| == (if |h| + 1 > maxHistory then |h| else |h| + 1)
      && r == ([entry] + h)[..|r|]
      && (|r| > 0 ==> r[0] == entry && r[1..] == h[..|r| - 1])
  {
  }

  /** The bound is kept by an insert, and an over-long list loaded from disk does not grow. */
  lemma InsertBound(h: seq<Entry>, entry: Entry, maxHistory: int)
    ensures |h| <= maxHistory ==> |Inserted(h, entry, maxHistory)| <= maxHistory
    ensures |h| > maxHistory ==> |Inserted(h, entry, maxHistory)| == |h|
    ensures maxHistory >= 1 ==> Inserted(h, entry, maxHistory)[0] == entry
  {
  }

  function Reversed<T>(s: seq<T>): (r: seq<T>)
    ensures |r| == |s|
  {
    if |s| == 0 then [] else Reversed(s[1..]) + [s[0]]
  }

  /** The list after the callback ran once for each entry of `es`, in arrival order. */
  function InsertAll(h: seq<Entry>, es: seq<Entry>, maxHistory: int): (r: seq<Entry>)
    ensures |r| <= |h| + |es|
    ensures forall x :: x in r ==> x in es || x in h
    decreases |es|
  {
    if |es| == 0 then h else InsertAll(Inserted(h, es[0], maxHistory), es[1..], maxHistory)
  }

  /**
   * Over any run of inserts the bound holds after every one of them, and the
   * list is always a prefix of the arrivals newest first followed by the
   * loaded list: eviction only ever takes the oldest entries.
   */
  lemma {:induction false} InsertAllNewestFirst(h: seq<Entry>, es: seq<Entry>, maxHistory: int)
    ensures |h| <= maxHistory ==> |InsertAll(h, es, maxHistory)| <= maxHistory
    ensures var r := InsertAll(h, es, maxHistory);
      |r| <= |Reversed(es) + h| && r == (Reversed(es) + h)[..|r|]
    decreases |es|
  {
    if |es| > 0 {
      var h1 := Inserted(h, es[0], maxHistory);
      InsertKeepsNewestFirst(h, es[0], maxHistory);
      InsertAllNewestFirst(h1, es[1..], maxHistory);
      var r := InsertAll(h1, es[1..], maxHistory);
      var tail := Reversed(es[1..]);
      assert Reversed(es) + h == tail + ([es[0]] + h);
      assert r == (tail + h1)[..|r|];
      assert tail + h1 == (tail + ([es[0]] + h))[..|tail| + |h1|];
    }
  }

  /** The list after `findIndex` + `splice(index, 1)`: the first entry with that id is gone. */
  function RemoveFirst(h: seq<Entry>, id: string): (r: seq<Entry>)
    ensures |r| == (if exists j :: 0 <= j < |h| && h[j].id == id then |h| - 1 else |h|)
    ensures forall x :: x in r ==> x in h
    decreases |h|
  {
    if |h| == 0 then []
    else if h[0].id == id then h[1..]
    else [h[0]] + RemoveFirst(h[1..], id)
  }

  /** When `i` is the first index with that id, exactly that entry is removed and the others keep their order. */
  lemma {:induction false} RemoveFirstAt(h: seq<Entry>, id: string, i: nat)
    requires i < |h| && h[i].id == id
    requires forall j :: 0 <= j < i ==> h[j].id != id
    ensures RemoveFirst(h, id) == h[..i] + h[i + 1..]
    decreases i
  {
    if i > 0 {
      RemoveFirstAt(h[1..], id, i - 1);
      assert h[1..][..i - 1] == h[1..i];
      assert h[1..][i..] == h[i + 1..];
      assert [h[0]] + h[1..i] == h[..i];
    }
  }

  /** Removing an id that is not there leaves the list as it was. */
  lemma {:induction false} RemoveFirstAbsent(h: seq<Entry>, id: string)
    requires forall j :: 0 <= j < |h| ==> h[j].id != id
    ensures RemoveFirst(h, id) == h
    decreases |h|
  {
    if |h| > 0 {
      RemoveFirstAbsent(h[1..], id);
      assert [h[0]] + h[1..] == h;
    }
  }

  /** `findIndex(item => item.id === id)`: the first index with that id, or -1. */
  method FindIndex(h: seq<Entry>, id: string) returns (index: int)
    ensures -1 <= index < |h|
    ensures index == -1 <==> forall j :: 0 <= j < |h| ==> h[j].id != id
    ensures index >= 0 ==> h[index].id == id && forall j :: 0 <= j < index ==> h[j].id != id
  {
    var i := 0;
    while i < |h|
      invariant 0 <= i <= |h|
      invariant forall j :: 0 <= j < i ==> h[j].id != id
    {
      if h[i].id == id {
        return i;
      }
      i := i + 1;
    }
    return -1;
  }

  class HistoryStore {
    var items: seq<Entry>
    /** The bound read from the settings when the monitor was set up; later saves do not change it. */
    const maxHistory: int

    constructor (loaded: seq<Entry>, maxHistory: int)
      ensures items == loaded && this.maxHistory == maxHistory
    {
      items := loaded;
      this.maxHistory := maxHistory;
    }

    /** The change callback's list update. */
    method Insert(entry: Entry)
      modifies this`items
      ensures items == Inserted(old(items), entry, maxHistory)
    {
      items := [entry] + items;
      if |items| > maxHistory {
        items := items[..|items| - 1];
      }
    }

    /** The `clipboard:delete` list update; `found` says whether anything was removed. */
    method Delete(id: string) returns (found: bool)
      modifies this`items
      ensures found <==> exists j :: 0 <= j < |old(items)| && old(items)[j].id == id
      ensures items == RemoveFirst(old(items), id)
      ensures !found ==> items == old(items)
    {
      var index := FindIndex(items, id);
      if index != -1 {
        RemoveFirstAt(items, id, index);
        items := items[..index] + items[index + 1..];
        found := true;
      } else {
        RemoveFirstAbsent(items, id);
        found := false;
      }
    }

    /** The `clipboard:clear` list update. */
    method Clear()
      modifies this`items
      ensures items == []
    {
      items := [];
    }
  }
}
