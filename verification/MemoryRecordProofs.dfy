/** Round trips of the memory record, and the errors its checksums always catch. */
module MemoryRecordProofs {
  import opened Wrappers
  import opened Texts
  import opened MemoryRecord
  import Adler32

  // ------------------------------------------------------------------ round trips

  lemma CoveredSlices(h: MemoryHeader, size: Word, checksum: Word, s: Text)
    requires s == Covered(h, size, checksum)
    ensures s[..8] == MAGIC && s[8..24] == h.nonce && s[24..40] == h.runtime && s[40..56] == h.ticket
    ensures s[56] == h.kind && s[57] == h.state && s[58] == 0 as char && s[59] == 0 as char
    ensures s[60..64] == PutWord(h.sequence) && s[64..68] == PutWord(size) && s[68..72] == PutWord(checksum)
    ensures s[72..76] == PutWord(HEADER_BYTES)
  {
  }

  /** The header of a longer text is that of its first 80 octets. */
  lemma HeaderOfFront(front: Text, rest: Text)
    requires |front| == HEADER_BYTES
    ensures DecodeHeader(front + rest) == DecodeHeader(front)
  {
    var b := front + rest;
    assert b[..8] == front[..8] && b[..76] == front[..76] && b[72..76] == front[72..76] && b[76..80] == front[76..80];
    assert b[8..24] == front[8..24] && b[24..40] == front[24..40] && b[40..56] == front[40..56];
    assert b[60..64] == front[60..64] && b[64..68] == front[64..68] && b[68..72] == front[68..72];
  }

  lemma EncodedHeader(h: MemoryHeader, size: Word, checksum: Word)
    requires Admissible(h) && size <= MAX_PAYLOAD
    ensures DecodeHeader(Header(Covered(h, size, checksum))) == Ok(h.(length := size, checksum := checksum))
  {
    var s := Covered(h, size, checksum);
    var b := Header(s);
    CoveredSlices(h, size, checksum, s);
    assert b[..76] == s && b[76..80] == PutWord(Adler32.Sum(s));
    assert b[..8] == s[..8] && b[8..24] == s[8..24] && b[24..40] == s[24..40] && b[40..56] == s[40..56];
    assert b[60..64] == s[60..64] && b[64..68] == s[64..68] && b[68..72] == s[68..72] && b[72..76] == s[72..76];
    PutGet(Adler32.Sum(s));
    PutGet(h.sequence);
    PutGet(size);
    PutGet(checksum);
    PutGet(HEADER_BYTES);
  }

  lemma EndingSlices(h: MemoryHeader)
    ensures Ending(h)[..8] == TRAILER && Ending(h)[8..24] == h.nonce && Ending(h)[24..] == h.runtime
  {
  }

  /** Decoding an encoded record gives back the payload and the header, with the payload's
      own length and checksum. */
  lemma RoundTrip(h: MemoryHeader, payload: Text)
    requires Encode(h, payload).Ok?
    ensures Decode(Encode(h, payload).value) ==
            Ok((h.(length := |payload|, checksum := Adler32.Sum(payload)), payload))
  {
    var front := Header(Covered(h, |payload|, Adler32.Sum(payload)));
    var b := Encoded(h, payload);
    assert b == front + (payload + Ending(h));
    HeaderOfFront(front, payload + Ending(h));
    EncodedHeader(h, |payload|, Adler32.Sum(payload));
    var at := HEADER_BYTES + |payload|;
    EndingSlices(h);
    assert b[80..at] == payload;
    assert b[at..] == Ending(h);
    assert b[at..at + 8] == b[at..][..8] && b[at + 8..at + 24] == b[at..][8..24] && b[at + 24..] == b[at..][24..];
  }

  lemma Pieces(s: Text)
    requires |s| == 76
    ensures s == s[..8] + s[8..24] + s[24..40] + s[40..56] + [s[56], s[57], s[58], s[59]] +
                 s[60..64] + s[64..68] + s[68..72] + s[72..76]
  {
  }

  lemma AcceptedHeader(b: Text, h: MemoryHeader)
    requires DecodeHeader(b) == Ok(h)
    ensures |b| >= HEADER_BYTES && h.length <= MAX_PAYLOAD && Admissible(h)
    ensures b[..80] == Header(Covered(h, h.length, h.checksum))
  {
    var s := b[..76];
    Pieces(s);
    assert s[..8] == b[..8] && s[8..24] == b[8..24] && s[24..40] == b[24..40] && s[40..56] == b[40..56];
    assert s[60..64] == b[60..64] && s[64..68] == b[64..68] && s[68..72] == b[68..72] && s[72..76] == b[72..76];
    GetPut(b[60..64]);
    GetPut(b[64..68]);
    GetPut(b[68..72]);
    GetPut(b[72..76]);
    GetPut(b[76..80]);
    assert s == Covered(h, h.length, h.checksum);
    assert b[..80] == s + b[76..80];
  }

  /** Every accepted record is the encoding of what it was decoded to. */
  lemma Reencodes(b: Text)
    requires Decode(b).Ok?
    ensures var (h, payload) := Decode(b).value;
            h.length == |payload| && h.checksum == Adler32.Sum(payload) && Encode(h, payload) == Ok(b)
  {
    var (h, payload) := Decode(b).value;
    AcceptedHeader(b, h);
    var at := HEADER_BYTES + h.length;
    var ending := b[at..];
    assert ending[..8] == b[at..at + 8] && ending[8..24] == b[at + 8..at + 24] && ending[24..] == b[at + 24..];
    assert ending == ending[..8] + ending[8..24] + ending[24..];
    assert b == b[..80] + b[80..at] + b[at..];
  }

  // -------------------------------------------------------------------- corruption

  /** How the low half of the checksum moves with one octet. */
  function Shifted(low: nat, delta: int): nat
    requires low < Adler32.MODULUS && -256 < delta < 256
  {
    if low + delta < 0 then low + delta + Adler32.MODULUS
    else if low + delta >= Adler32.MODULUS then low + delta - Adler32.MODULUS else low + delta
  }

  lemma AddShifted(low: nat, delta: int, x: nat)
    requires low < Adler32.MODULUS && -256 < delta < 256 && x < 256
    ensures (Shifted(low, delta) + x) % Adler32.MODULUS == Shifted((low + x) % Adler32.MODULUS, delta)
  {
  }

  lemma {:induction false} LowShifts(s: Text, i: nat, c: Octet)
    requires i < |s|
    ensures Adler32.Low(s[i := c]) == Shifted(Adler32.Low(s), c as int - s[i] as int)
    decreases |s|
  {
    var last := |s| - 1;
    var t := s[i := c];
    var delta := c as int - s[i] as int;
    if i == last {
      assert t[..last] == s[..last];
      AddLast(Adler32.Low(s[..last]), s[last] as int, c as int);
    } else {
      assert t[..last] == s[..last][i := c] && t[last] == s[last];
      LowShifts(s[..last], i, c);
      AddShifted(Adler32.Low(s[..last]), delta, s[last] as int);
    }
  }

  lemma AddLast(low: nat, x: nat, y: nat)
    requires low < Adler32.MODULUS && x < 256 && y < 256
    ensures (low + y) % Adler32.MODULUS == Shifted((low + x) % Adler32.MODULUS, y - x)
  {
  }

  /** Changing one octet changes the checksum. */
  lemma ChangeDetected(s: Text, i: nat, c: Octet)
    requires i < |s| && c != s[i]
    ensures Adler32.Sum(s[i := c]) != Adler32.Sum(s)
  {
    LowShifts(s, i, c);
    HalvesKept(Adler32.High(s[i := c]), Adler32.Low(s[i := c]), Adler32.High(s), Adler32.Low(s));
  }

  lemma HalvesKept(high: nat, low: nat, otherHigh: nat, otherLow: nat)
    requires low < 0x1_0000 && otherLow < 0x1_0000
    ensures high * 0x1_0000 + low == otherHigh * 0x1_0000 + otherLow ==> low == otherLow
  {
  }

  lemma WordsDiffer(s: Text, t: Text)
    requires |s| == |t| == 4 && s != t
    ensures GetWord(s) != GetWord(t)
  {
    GetPut(s);
    GetPut(t);
  }

  lemma HeaderChangeRejected(b: Text, i: nat, c: Octet)
    requires DecodeHeader(b).Ok? && i < HEADER_BYTES && c != b[i]
    ensures DecodeHeader(b[i := c]).Err?
  {
    var t := b[i := c];
    if i < 76 {
      assert t[..76] == b[..76][i := c] && t[76..80] == b[76..80];
      ChangeDetected(b[..76], i, c);
    } else {
      assert t[..76] == b[..76] && t[76..80][i - 76] == c && b[76..80][i - 76] == b[i];
      WordsDiffer(t[76..80], b[76..80]);
    }
  }

  lemma BodyChangeRejected(b: Text, i: nat, c: Octet)
    requires Decode(b).Ok? && HEADER_BYTES <= i < |b| && c != b[i]
    ensures Decode(b[i := c]).Err?
  {
    var (h, payload) := Decode(b).value;
    var t, at := b[i := c], HEADER_BYTES + h.length;
    assert t == t[..80] + t[80..] && b == b[..80] + b[80..] && t[..80] == b[..80];
    HeaderOfFront(b[..80], b[80..]);
    HeaderOfFront(b[..80], t[80..]);
    if i < at {
      assert t[80..at] == b[80..at][i - 80 := c] && b[80..at][i - 80] == b[i];
      ChangeDetected(b[80..at], i - 80, c);
    } else if i < at + 8 {
      assert t[at..at + 8][i - at] == c && b[at..at + 8][i - at] == b[i];
    } else if i < at + 24 {
      assert t[at + 8..at + 24][i - at - 8] == c && b[at + 8..at + 24][i - at - 8] == b[i];
    } else {
      assert t[at + 24..][i - at - 24] == c && b[at + 24..][i - at - 24] == b[i];
    }
  }

  /** Changing any one octet of an accepted record makes it rejected. */
  lemma SingleChangeRejected(b: Text, i: nat, c: Octet)
    requires Decode(b).Ok? && i < |b| && c != b[i]
    ensures Decode(b[i := c]).Err?
  {
    if i < HEADER_BYTES {
      HeaderChangeRejected(b, i, c);
    } else {
      BodyChangeRejected(b, i, c);
    }
  }

  /** So does cutting it short or adding to it. */
  lemma WrongLengthRejected(b: Text, t: Text)
    requires Decode(b).Ok? && (t < b || b < t)
    ensures Decode(t).Err?
  {
    var (h, payload) := Decode(b).value;
    if |t| >= HEADER_BYTES {
      assert t == t[..80] + t[80..] && b == b[..80] + b[80..] && t[..80] == b[..80];
      HeaderOfFront(b[..80], b[80..]);
      HeaderOfFront(b[..80], t[80..]);
    }
  }
}
