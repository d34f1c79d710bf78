/** The binary memory record (internal/bridge/memory_record.go). */
module MemoryRecord {
  import opened Wrappers
  import opened Texts
  import Adler32

  const HEADER_BYTES := 80
  const TRAILER_BYTES := 40
  const MAX_PAYLOAD := 0x8_0000
  const MAGIC: Text := "LYCMEM06"
  const TRAILER: Text := "LYCEND06"

  type Word = n: nat | n < 0x1_0000_0000

  type Block = s: Text | |s| == 16 witness seq(16, (k: nat) => 0 as char)

  datatype MemoryHeader = MemoryHeader(
    nonce: Block, runtime: Block, ticket: Block, kind: Octet, state: Octet, sequence: Word, length: Word,
    checksum: Word)

  datatype Failure = RecordInvalid | HeaderInvalid | HeaderBounds | BodyInvalid

  // ------------------------------------------------------------- little-endian words

  function PutWord(n: Word): (s: Text)
    ensures |s| == 4
  {
    var q1 := n / 256;
    var q2 := q1 / 256;
    [(n % 256) as char, (q1 % 256) as char, (q2 % 256) as char, (q2 / 256) as char]
  }

  function GetWord(s: Text): (n: Word)
    requires |s| == 4
  {
    s[0] as int + 256 * (s[1] as int + 256 * (s[2] as int + 256 * s[3] as int))
  }

  lemma PutGet(n: Word)
    ensures GetWord(PutWord(n)) == n
  {
    var q1 := n / 256;
    var q2 := q1 / 256;
    assert n == n % 256 + 256 * q1 && q1 == q1 % 256 + 256 * q2 && q2 == q2 % 256 + 256 * (q2 / 256);
  }

  lemma GetPut(s: Text)
    requires |s| == 4
    ensures PutWord(GetWord(s)) == s
  {
    var q2 := s[2] as int + 256 * s[3] as int;
    var q1 := s[1] as int + 256 * q2;
    assert GetWord(s) == s[0] as int + 256 * q1;
    assert GetWord(s) / 256 == q1 && q1 / 256 == q2 && q2 / 256 == s[3] as int;
  }

  // -------------------------------------------------------------------- the codec

  predicate Admissible(h: MemoryHeader) {
    1 as char <= h.kind <= 6 as char && h.state != 0 as char
  }

  /** The first 76 octets, which the header's own checksum covers. */
  function Covered(h: MemoryHeader, size: Word, checksum: Word): (s: Text)
    ensures |s| == 76
  {
    MAGIC + h.nonce + h.runtime + h.ticket + [h.kind, h.state, 0 as char, 0 as char] +
    PutWord(h.sequence) + PutWord(size) + PutWord(checksum) + PutWord(HEADER_BYTES)
  }

  function Header(covered: Text): (s: Text)
    ensures |s| == |covered| + 4
  {
    covered + PutWord(Adler32.Sum(covered))
  }

  function Ending(h: MemoryHeader): (s: Text)
    ensures |s| == TRAILER_BYTES
  {
    TRAILER + h.nonce + h.runtime
  }

  function Encoded(h: MemoryHeader, payload: Text): Text
    requires |payload| <= MAX_PAYLOAD
  {
    Header(Covered(h, |payload|, Adler32.Sum(payload))) + payload + Ending(h)
  }

  function Encode(h: MemoryHeader, payload: Text): Result<Text, Failure> {
    if |payload| > MAX_PAYLOAD || !Admissible(h) then Err(RecordInvalid) else Ok(Encoded(h, payload))
  }

  function DecodeHeader(b: Text): Result<MemoryHeader, Failure> {
    if |b| < HEADER_BYTES || b[..8] != MAGIC || b[58] != 0 as char || b[59] != 0 as char ||
       GetWord(b[72..76]) != HEADER_BYTES || GetWord(b[76..80]) != Adler32.Sum(b[..76])
    then Err(HeaderInvalid)
    else
      var h := MemoryHeader(b[8..24], b[24..40], b[40..56], b[56], b[57], GetWord(b[60..64]), GetWord(b[64..68]),
          GetWord(b[68..72]));
      if h.length > MAX_PAYLOAD || !Admissible(h) then Err(HeaderBounds) else Ok(h)
  }

  function Decode(b: Text): Result<(MemoryHeader, Text), Failure> {
    match DecodeHeader(b)
    case Err(e) => Err(e)
    case Ok(h) =>
      var at := HEADER_BYTES + h.length;
      if |b| != at + TRAILER_BYTES || Adler32.Sum(b[80..at]) != h.checksum || b[at..at + 8] != TRAILER ||
         b[at + 8..at + 24] != h.nonce || b[at + 24..] != h.runtime
      then Err(BodyInvalid) else Ok((h, b[80..at]))
  }

  // --------------------------------------------------------------------- in place

  function Zeros(n: nat): Text {
    seq(n, (k: nat) => 0 as char)
  }

  /** copy(b[at:], s). */
  method CopyInto(b: array<Octet>, at: nat, s: Text, ghost done: Text, ghost rest: Text)
    requires b[..] == done + rest && |done| == at && |s| <= |rest|
    modifies b
    ensures b[..] == (done + s) + rest[|s|..]
  {
    for k := 0 to |s|
      invariant b[..] == done + s[..k] + rest[k..]
    {
      assert (done + s[..k] + rest[k..])[at + k] == rest[k];
      b[at + k] := s[k];
      assert b[..] == (done + s[..k] + rest[k..])[at + k := s[k]];
      assert s[..k + 1] == s[..k] + [s[k]];
    }
    assert s[..|s|] == s;
  }

  method EncodeMemoryRecord(h: MemoryHeader, payload: Text) returns (r: Result<array<Octet>, Failure>)
    ensures r.Ok? <==> Encode(h, payload).Ok?
    ensures r.Ok? ==> fresh(r.value) && Ok(r.value[..]) == Encode(h, payload)
    ensures r.Err? ==> r.error == RecordInvalid
  {
    if |payload| > MAX_PAYLOAD || !Admissible(h) {
      return Err(RecordInvalid);
    }
    var size := HEADER_BYTES + |payload| + TRAILER_BYTES;
    var b := new Octet[size](k => 0 as char);
    assert b[..] == [] + Zeros(size);
    FillHeader(b, h, |payload|, Adler32.Sum(payload), size);
    ghost var header := Header(Covered(h, |payload|, Adler32.Sum(payload)));
    CopyInto(b, 80, payload, header, Zeros(size - 80));
    assert Zeros(size - 80)[|payload|..] == Zeros(TRAILER_BYTES);
    FillEnding(b, h, header + payload);
    return Ok(b);
  }

  method FillHeader(b: array<Octet>, h: MemoryHeader, length: Word, checksum: Word, size: nat)
    requires b[..] == Zeros(size) && size >= HEADER_BYTES
    modifies b
    ensures b[..] == Header(Covered(h, length, checksum)) + Zeros(size - 80)
  {
    var names := MAGIC + h.nonce + h.runtime + h.ticket + [h.kind, h.state];
    CopyInto(b, 0, names, [], Zeros(size));
    assert [] + names == names && Zeros(size)[58..] == [0 as char, 0 as char] + Zeros(size - 60);
    var words := PutWord(h.sequence) + PutWord(length) + PutWord(checksum) + PutWord(HEADER_BYTES);
    CopyInto(b, 60, words, names + [0 as char, 0 as char], Zeros(size - 60));
    ghost var covered := Covered(h, length, checksum);
    assert (names + [0 as char, 0 as char]) + words == covered;
    assert Zeros(size - 60)[16..] == Zeros(size - 76);
    assert b[..76] == b[..][..76] == covered;
    CopyInto(b, 76, PutWord(Adler32.Sum(b[..76])), covered, Zeros(size - 76));
    assert Zeros(size - 76)[4..] == Zeros(size - 80);
  }

  method FillEnding(b: array<Octet>, h: MemoryHeader, ghost done: Text)
    requires b[..] == done + Zeros(TRAILER_BYTES)
    modifies b
    ensures b[..] == done + Ending(h)
  {
    var at := b.Length - TRAILER_BYTES;
    CopyInto(b, at, TRAILER, done, Zeros(40));
    assert Zeros(40)[8..] == Zeros(32);
    CopyInto(b, at + 8, h.nonce, done + TRAILER, Zeros(32));
    assert Zeros(32)[16..] == Zeros(16);
    CopyInto(b, at + 24, h.runtime, done + TRAILER + h.nonce, Zeros(16));
    assert (done + TRAILER + h.nonce + h.runtime) + Zeros(16)[16..] == done + Ending(h);
  }
}
