/**
 The 32-bit machine the kernel runs on: physical memory as 4 KB frames of
 32-bit words, with a little-endian byte view of each word.
 A pointer is a physical address, as the kernel assumes for every frame the
 frame allocator hands out.
 */
module Machine {

  const PAGE_SIZE: nat := 4096
  const ENTRIES: nat := 1024             // words in a frame, entries in a page table
  const PHYS_FRAMES: nat := 0x10_0000    // frames in a 32-bit physical address space
  const MAX_FRAMES: nat := 32768         // frames the bitmap tracks (128 MB)
  const WORD_LIMIT: nat := 0x1_0000_0000

  type Byte = x: int | 0 <= x < 256
  type Word = x: int | 0 <= x < 0x1_0000_0000

  type Page = p: seq<Word> | |p| == ENTRIES ghost witness seq<Word>(ENTRIES, _ => 0)
  type Memory = m: seq<Page> | |m| == PHYS_FRAMES ghost witness seq<Page>(PHYS_FRAMES, _ => ZeroPage())

  function ZeroPage(): Page { seq<Word>(ENTRIES, _ => 0) }

  /** 32-bit wrap-around addition. */
  function Add32(x: Word, y: Word): Word { (x + y) % WORD_LIMIT }

  /** Byte `k` of a little-endian word. */
  function WordByte(w: Word, k: nat): Byte
    requires k < 4
  {
    if k == 0 then w % 0x100
    else if k == 1 then w / 0x100 % 0x100
    else if k == 2 then w / 0x100 / 0x100 % 0x100
    else w / 0x100 / 0x100 / 0x100
  }

  function FromBytes(b0: Byte, b1: Byte, b2: Byte, b3: Byte): Word {
    b0 + 0x100 * b1 + 0x1_0000 * b2 + 0x100_0000 * b3
  }

  /** The byte at offset `o` of a page. */
  function ByteAt(p: Page, o: nat): Byte
    requires o < PAGE_SIZE
  {
    WordByte(p[o / 4], o % 4)
  }

  /** Stores one byte; the other 4095 bytes of the page keep their value. */
  function SetByte(p: Page, o: nat, b: Byte): (q: Page)
    requires o < PAGE_SIZE
    ensures ByteAt(q, o) == b
    ensures forall k: nat :: k < PAGE_SIZE && k != o ==> ByteAt(q, k) == ByteAt(p, k)
  {
    var w := p[o / 4];
    var b0 := if o % 4 == 0 then b else WordByte(w, 0);
    var b1 := if o % 4 == 1 then b else WordByte(w, 1);
    var b2 := if o % 4 == 2 then b else WordByte(w, 2);
    var b3 := if o % 4 == 3 then b else WordByte(w, 3);
    BytesOfFromBytes(b0, b1, b2, b3);
    p[o / 4 := FromBytes(b0, b1, b2, b3)]
  }

  lemma BytesOfFromBytes(b0: Byte, b1: Byte, b2: Byte, b3: Byte)
    ensures var w := FromBytes(b0, b1, b2, b3);
            WordByte(w, 0) == b0 && WordByte(w, 1) == b1 && WordByte(w, 2) == b2 && WordByte(w, 3) == b3
  {
  }

  lemma WordFromItsBytes(w: Word)
    ensures w == FromBytes(WordByte(w, 0), WordByte(w, 1), WordByte(w, 2), WordByte(w, 3))
  {
    var q1 := w / 0x100;
    var q2 := q1 / 0x100;
    assert w == 0x100 * q1 + w % 0x100 && q1 == 0x100 * q2 + q1 % 0x100;
    assert q2 == 0x100 * (q2 / 0x100) + q2 % 0x100;
  }

  lemma ByteInWord(p: Page, i: nat, k: nat)
    requires i < ENTRIES && k < 4
    ensures ByteAt(p, 4 * i + k) == WordByte(p[i], k)
  {
    assert (4 * i + k) / 4 == i && (4 * i + k) % 4 == k;
  }

  lemma WordsAgree(p: Page, q: Page, i: nat)
    requires i < ENTRIES
    requires forall o: nat :: o < PAGE_SIZE ==> ByteAt(p, o) == ByteAt(q, o)
    ensures p[i] == q[i]
  {
    forall k: nat | k < 4 ensures WordByte(p[i], k) == WordByte(q[i], k) {
      assert ByteAt(p, 4 * i + k) == ByteAt(q, 4 * i + k);
      ByteInWord(p, i, k);
      ByteInWord(q, i, k);
    }
    WordFromItsBytes(p[i]);
    WordFromItsBytes(q[i]);
  }

  /** A page is determined by its bytes, so copying every byte copies the page. */
  lemma PageFromItsBytes(p: Page, q: Page)
    requires forall o: nat :: o < PAGE_SIZE ==> ByteAt(p, o) == ByteAt(q, o)
    ensures p == q
  {
    forall i: nat | i < ENTRIES ensures p[i] == q[i] {
      WordsAgree(p, q, i);
    }
  }
}
