/**
 * How the owner of integrated_capacity.c reads a sealed cell's spool: the windowed search for
 * the terminal event, and the copy of a spool into an artifact, both over short reads.
 */
module Spools {
  import opened Bytes

  const IMPORT_WINDOW := 4096

  /** The event a model response must contain to be complete. */
  const NEEDLE: Bytes :=
    Ascii("data: {\"type\":") + Ascii("\"response.completed\",") + Ascii("\"response\":{\"status\":")
    + Ascii("\"completed\"}}\n\n")

  lemma NeedleFits()
    ensures 0 < |NEEDLE| <= IMPORT_WINDOW
  {}

  /** An open spool. A read returns some of what is left, and nothing only at the end; unless the file is sound it may fail. */
  class File {
    const content: Bytes
    const sound: bool
    var at: nat
    ghost var failed: bool

    constructor (content: Bytes, sound: bool)
      ensures this.content == content && this.sound == sound && at == 0 && !failed
    {
      this.content, this.sound, at, failed := content, sound, 0, false;
    }

    method Read(window: array<byte>, offset: nat, room: nat) returns (got: int)
      requires at <= |content| && offset + room <= window.Length && room > 0 && !failed
      modifies this`at, this`failed, window
      ensures got == -1 <==> failed
      ensures failed ==> !sound
      ensures got == -1 || 0 <= got <= room
      ensures got == -1 ==> at == old(at) && window[..] == old(window[..])
      ensures got == 0 <==> !failed && old(at) == |content|
      ensures got > 0 ==> at > old(at)
      ensures got >= 0 ==> at == old(at) + got <= |content|
      ensures got >= 0 ==> window[offset..offset + got] == content[old(at)..at]
      ensures window[..offset] == old(window[..offset])
    {
      var broken: bool := *;
      if broken && !sound {
        failed := true;
        return -1;
      }
      var left := |content| - at;
      if left == 0 {
        return 0;
      }
      got :| 1 <= got <= room && got <= left;
      forall k | 0 <= k < got {
        window[offset + k] := content[at + k];
      }
      at := at + got;
    }
  }

  predicate OccursAt(s: Bytes, needle: Bytes, i: nat) {
    i + |needle| <= |s| && s[i..i + |needle|] == needle
  }

  ghost predicate Occurs(s: Bytes, needle: Bytes) {
    exists i: nat :: OccursAt(s, needle, i)
  }

  /** Whether the needle is among the first `total` bytes of the window. */
  method FindIn(window: array<byte>, total: nat, needle: Bytes) returns (found: bool)
    requires total <= window.Length && needle != []
    ensures found <==> Occurs(window[..total], needle)
  {
    var i := 0;
    while i + |needle| <= total
      invariant forall k: nat :: k < i ==> !OccursAt(window[..total], needle, k)
    {
      if window[i..i + |needle|] == needle {
        assert window[..total][i..i + |needle|] == needle;
        assert OccursAt(window[..total], needle, i);
        return true;
      }
      assert window[..total][i..i + |needle|] == window[i..i + |needle|];
      i := i + 1;
    }
    found := false;
  }

  /** An occurrence in what was read so far is an earlier one, or lies in the window. */
  lemma OccursInWindow(s: Bytes, old': nat, at: nat, carry: nat, needle: Bytes)
    requires old' <= at <= |s| && needle != []
    requires carry == if old' < |needle| - 1 then old' else |needle| - 1
    ensures Occurs(s[..at], needle) <==> Occurs(s[..old'], needle) || Occurs(s[old' - carry..at], needle)
  {
    if Occurs(s[..at], needle) {
      var i: nat :| OccursAt(s[..at], needle, i);
      if i + |needle| <= old' {
        Moved(s[..at], 0, old', needle, i);
        assert s[..at][0..old'] == s[..old'];
      } else {
        Moved(s[..at], old' - carry, at, needle, i);
        assert s[..at][old' - carry..at] == s[old' - carry..at];
      }
    }
    if Occurs(s[..old'], needle) {
      assert s[..at][0..old'] == s[..old'];
      Contained(s[..at], 0, old', needle);
    }
    if Occurs(s[old' - carry..at], needle) {
      assert s[..at][old' - carry..at] == s[old' - carry..at];
      Contained(s[..at], old' - carry, at, needle);
    }
  }

  /** An occurrence inside a part of a text, in that part. */
  lemma Moved(s: Bytes, lo: nat, hi: nat, needle: Bytes, i: nat)
    requires lo <= i && i + |needle| <= hi <= |s| && OccursAt(s, needle, i)
    ensures Occurs(s[lo..hi], needle)
  {
    SubSlice(s, lo, hi - lo, i - lo, |needle|);
    assert OccursAt(s[lo..hi], needle, i - lo);
  }

  /** An occurrence in a part of a text, in the text. */
  lemma Contained(s: Bytes, lo: nat, hi: nat, needle: Bytes)
    requires lo <= hi <= |s| && Occurs(s[lo..hi], needle)
    ensures Occurs(s, needle)
  {
    var i: nat :| OccursAt(s[lo..hi], needle, i);
    SubSlice(s, lo, hi - lo, i, |needle|);
    assert OccursAt(s, needle, lo + i);
  }

  /** The window's first bytes are the last ones read. */
  ghost predicate Shows(window: array<byte>, count: nat, s: Bytes, at: nat)
    reads window
  {
    count <= window.Length && count <= at <= |s| && window[..count] == s[at - count..at]
  }

  /** Reads after the carry. */
  method Refill(file: File, window: array<byte>, carry: nat) returns (got: int)
    requires carry < window.Length && !file.failed && Shows(window, carry, file.content, file.at)
    modifies file`at, file`failed, window
    ensures got == -1 <==> file.failed
    ensures file.failed ==> !file.sound
    ensures got >= 0 ==> file.at == old(file.at) + got && Shows(window, carry + got, file.content, file.at)
    ensures got == -1 || (got >= 0 && (got == 0 <==> old(file.at) == |file.content|))
  {
    ghost var before := file.at;
    got := file.Read(window, carry, window.Length - carry);
    if got >= 0 {
      Filled(window[..carry + got], carry, file.content, before, got);
    }
  }

  /** Looks for an occurrence that the bytes before the last read did not have. */
  method Search(window: array<byte>, total: nat, needle: Bytes, ghost s: Bytes, ghost before: nat, ghost at: nat)
      returns (found: bool)
    requires needle != [] && Shows(window, total, s, at) && before <= at && !Occurs(s[..before], needle)
    requires at - total == before - (if before < |needle| - 1 then before else |needle| - 1)
    ensures found <==> Occurs(s[..at], needle)
  {
    OccursInWindow(s, before, at, before - (at - total), needle);
    found := FindIn(window, total, needle);
  }

  /** Moves the last bytes of the window to its front. */
  method Slide(window: array<byte>, total: nat, carry: nat, ghost s: Bytes, ghost at: nat)
    requires carry <= total && Shows(window, total, s, at)
    modifies window
    ensures Shows(window, carry, s, at)
  {
    assert window[total - carry..total] == window[..total][total - carry..] == s[at - carry..at];
    forall k | 0 <= k < carry {
      window[k] := window[total - carry + k];
    }
  }

  /** `contains_synthetic_terminal`: one fixed window, and a carry of one byte less than the needle. */
  method Contains(file: File, window: array<byte>, needle: Bytes) returns (found: bool)
    requires window.Length == IMPORT_WINDOW && 0 < |needle| <= IMPORT_WINDOW && !file.failed
    modifies file, window
    ensures found <==> Occurs(file.content, needle) && !file.failed
    ensures file.failed ==> !file.sound
  {
    hide Occurs;
    var carry := 0;
    file.at := 0;
    NothingOccurs(needle);
    while true
      invariant file.at <= |file.content| && !file.failed
      invariant carry == if file.at < |needle| - 1 then file.at else |needle| - 1
      invariant Shows(window, carry, file.content, file.at)
      invariant !Occurs(file.content[..file.at], needle)
      decreases |file.content| - file.at
    {
      ghost var before := file.at;
      var got := Refill(file, window, carry);
      if got < 0 {
        return false;
      }
      var total := carry + got;
      var here := Search(window, total, needle, file.content, before, file.at);
      if here {
        OccursMore(file.content, file.at, needle);
        return true;
      }
      if got == 0 {
        assert file.content[..file.at] == file.content;
        return false;
      }
      carry := if total < |needle| - 1 then total else |needle| - 1;
      Slide(window, total, carry, file.content, file.at);
    }
  }

  lemma NothingOccurs(needle: Bytes)
    requires needle != []
    ensures forall s: Bytes :: !Occurs(s[..0], needle)
  {}

  lemma Filled(w: Bytes, carry: nat, s: Bytes, before: nat, got: nat)
    requires |w| == carry + got && carry <= before && before + got <= |s|
    requires w[..carry] == s[before - carry..before] && w[carry..] == s[before..before + got]
    ensures w == s[before - carry..before + got]
  {
    assert w == w[..carry] + w[carry..];
  }

  lemma OccursMore(s: Bytes, at: nat, needle: Bytes)
    requires at <= |s| && Occurs(s[..at], needle)
    ensures Occurs(s, needle)
  {
    assert s[0..at] == s[..at];
    Contained(s, 0, at, needle);
  }

  /** Writes the window's first bytes into the blob. */
  method StoreWindow(blob: array<byte>, offset: nat, window: array<byte>, got: nat, ghost s: Bytes)
    requires blob != window && got <= window.Length && offset + got <= blob.Length && offset + got <= |s|
    requires blob[..offset] == s[..offset] && window[..got] == s[offset..offset + got]
    modifies blob
    ensures blob[..offset + got] == s[..offset + got]
  {
    forall k | 0 <= k < got {
      blob[offset + k] := window[k];
    }
    assert blob[offset..offset + got] == window[..got];
    assert blob[..offset + got] == blob[..offset] + blob[offset..offset + got];
    assert s[..offset + got] == s[..offset] + s[offset..offset + got];
  }

  /** `import_part`: fills a blob of the cell's byte count from its spool, window by window. */
  method ImportPart(file: File, length: nat, window: array<byte>) returns (r: Option<Bytes>)
    requires window.Length == IMPORT_WINDOW && !file.failed
    modifies file, window
    ensures r.Some? <==> length <= |file.content| && !file.failed
    ensures file.failed ==> !file.sound
    ensures r.Some? ==> r.value == file.content[..length]
  {
    var blob := new byte[length](_ => 0);
    file.at := 0;
    var offset := 0;
    while offset < length
      invariant offset == file.at <= |file.content| && offset <= length && !file.failed
      invariant blob[..offset] == file.content[..offset]
    {
      var wanted := if length - offset < IMPORT_WINDOW then length - offset else IMPORT_WINDOW;
      var got := file.Read(window, 0, wanted);
      if got <= 0 {
        return None;
      }
      StoreWindow(blob, offset, window, got, file.content);
      offset := offset + got;
    }
    r := Some(blob[..]);
    assert blob[..length] == blob[..];
  }
}
