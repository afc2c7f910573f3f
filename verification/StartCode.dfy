/**
 The search for Annex B start codes (libobs/obs-nal.c), which steps over four bytes at a time where it can.
 It agrees with the search one position at a time.
 */
module StartCode {
  import opened Bytes

  /** A start code `00 00 01` that at least one more byte follows; a bare one at the very end is not looked at. */
  predicate IsStart(s: bytes, i: int) {
    0 <= i && i + 3 < |s| && s[i] == 0 && s[i + 1] == 0 && s[i + 2] == 1
  }

  /** The first start code at or after `p`, or the end. */
  function FirstStart(s: bytes, p: nat): (r: nat)
    requires p <= |s|
    ensures p <= r <= |s|
    ensures r < |s| ==> IsStart(s, r)
    ensures forall i :: p <= i < r ==> !IsStart(s, i)
    decreases |s| - p
  {
    if p == |s| || IsStart(s, p) then p else FirstStart(s, p + 1)
  }

  /** `obs_nal_find_startcode`: one byte earlier if a zero byte after `p` precedes the start code. */
  function FindStartCode(s: bytes, p: nat): (r: nat)
    requires p <= |s|
    ensures p <= r <= |s|
  {
    var out := FirstStart(s, p);
    if p < out < |s| && s[out - 1] == 0 then out - 1 else out
  }

  lemma FirstStartIs(s: bytes, p: nat, r: nat)
    requires p <= r <= |s|
    requires r == |s| || IsStart(s, r)
    requires forall i :: p <= i < r ==> !IsStart(s, i)
    ensures FirstStart(s, p) == r
  {
  }

  /** A `00 00 01` is found by some search if and only if at least one more byte follows. */
  lemma FoundUnlessLast(s: bytes, i: nat)
    requires i + 2 < |s| && s[i] == 0 && s[i + 1] == 0 && s[i + 2] == 1
    ensures (exists p: nat :: p <= |s| && FirstStart(s, p) == i) <==> i + 3 < |s|
  {
    if i + 3 < |s| {
      FirstStartIs(s, i, i);
    }
  }

  /** A packet that is a start code and nothing else has none, as far as the search goes. */
  lemma BareStartCode(s: bytes)
    requires s == [0, 0, 1]
    ensures FindStartCode(s, 0) == |s|
  {
    FirstStartIs(s, 0, 3);
  }

  // ---------- The word test ----------

  /** Four bytes read as one 32-bit word. */
  function Word(b0: byte, b1: byte, b2: byte, b3: byte): bv32 {
    var w0, w1, w2, w3 := b0 as bv8, b1 as bv8, b2 as bv8, b3 as bv8;
    (w0 as bv32) | ((w1 as bv32) << 8) | ((w2 as bv32) << 16) | ((w3 as bv32) << 24)
  }

  predicate MayContainZero(x: bv32) {
    (x - 0x01010101) & !x & 0x80808080 != 0
  }

  /** The bit trick finds exactly the words that contain a zero byte. */
  lemma WordTest(b0: byte, b1: byte, b2: byte, b3: byte)
    ensures MayContainZero(Word(b0, b1, b2, b3)) <==> b0 == 0 || b1 == 0 || b2 == 0 || b3 == 0
  {
    ByteBits(b0);
    ByteBits(b1);
    ByteBits(b2);
    ByteBits(b3);
    WordTestBits(b0 as bv8, b1 as bv8, b2 as bv8, b3 as bv8);
  }

  lemma ByteBits(b: byte)
    ensures b as bv8 == 0 <==> b == 0
  {
  }

  lemma WordTestBits(w0: bv8, w1: bv8, w2: bv8, w3: bv8)
    ensures MayContainZero((w0 as bv32) | ((w1 as bv32) << 8) | ((w2 as bv32) << 16) | ((w3 as bv32) << 24))
      <==> w0 == 0 || w1 == 0 || w2 == 0 || w3 == 0
  {
  }

  method WordContainsZero(s: bytes, p: nat) returns (b: bool)
    requires p + 4 <= |s|
    ensures b <==> s[p] == 0 || s[p + 1] == 0 || s[p + 2] == 0 || s[p + 3] == 0
  {
    WordTest(s[p], s[p + 1], s[p + 2], s[p + 3]);
    return MayContainZero(Word(s[p], s[p + 1], s[p + 2], s[p + 3]));
  }

  /** The body of the word loop: which of the four positions is the first start code, or 4. */
  method CheckWord(s: bytes, p: nat) returns (found: nat)
    requires p + 6 < |s|
    ensures found <= 4
    ensures found < 4 ==> IsStart(s, p + found)
    ensures forall i :: p <= i < p + found ==> !IsStart(s, i)
  {
    var zero := WordContainsZero(s, p);
    if zero {
      if s[p + 1] == 0 {
        if s[p] == 0 && s[p + 2] == 1 {
          return 0;
        }
        if s[p + 2] == 0 && s[p + 3] == 1 {
          return 1;
        }
      }
      if s[p + 3] == 0 {
        if s[p + 2] == 0 && s[p + 4] == 1 {
          return 2;
        }
        if s[p + 4] == 0 && s[p + 5] == 1 {
          return 3;
        }
      }
    }
    return 4;
  }

  /** `ff_avc_find_startcode_internal`; `misalignment` is the position of `p` within its machine word. */
  method FindInternal(s: bytes, start: nat, misalignment: nat) returns (out: nat)
    requires start <= |s| && misalignment < 4
    ensures out == FirstStart(s, start)
  {
    var p := start;
    var aligned := p + 4 - misalignment;
    while p < aligned && p < |s| - 3
      invariant start <= p <= |s|
      invariant FirstStart(s, start) == FirstStart(s, p)
    {
      if s[p] == 0 && s[p + 1] == 0 && s[p + 2] == 1 {
        return p;
      }
      p := p + 1;
    }
    while p < |s| - 6
      invariant start <= p <= |s|
      invariant FirstStart(s, start) == FirstStart(s, p)
    {
      var found := CheckWord(s, p);
      if found < 4 {
        FirstStartIs(s, p, p + found);
        return p + found;
      }
      SkipFour(s, p);
      p := p + 4;
    }
    while p < |s| - 3
      invariant start <= p <= |s|
      invariant FirstStart(s, start) == FirstStart(s, p)
    {
      if s[p] == 0 && s[p + 1] == 0 && s[p + 2] == 1 {
        return p;
      }
      p := p + 1;
    }
    FirstStartIs(s, p, |s|);
    return |s|;
  }

  lemma SkipFour(s: bytes, p: nat)
    requires p + 4 <= |s|
    requires forall i :: p <= i < p + 4 ==> !IsStart(s, i)
    ensures FirstStart(s, p) == FirstStart(s, p + 4)
  {
    FirstStartIs(s, p, FirstStart(s, p + 4));
  }

  method Find(s: bytes, p: nat, misalignment: nat) returns (out: nat)
    requires p <= |s| && misalignment < 4
    ensures out == FindStartCode(s, p)
  {
    out := FindInternal(s, p, misalignment);
    if p < out < |s| && s[out - 1] == 0 {
      out := out - 1;
    }
  }
}
