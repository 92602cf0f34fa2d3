/** The file headers the correlator skips before the data: readHeaderConfocor2,
    readHeaderConfocor3, readHeaderPicoHarpPT3, readHeaderLongPicoHarpPT3 and
    readHeaderPicoHarpPT2. They only read, and what matters is how many bytes
    they consume; all of them return 1. */
module Headers {
  import opened JavaInt

  function Min(a: int, b: int): int
  {
    if a <= b then a else b
  }

  function Max0(a: int): nat
  {
    if a >= 0 then a else 0
  }

  /** `read(buf)` on a file at position pos: at the end it returns -1 and
      leaves buf alone; otherwise it copies as many bytes as fit and remain
      into the front of buf, and moves on by that many. */
  datatype Read = Read(pos: nat, buf: seq<Byte>, count: int)

  function ReadInto(file: seq<Byte>, pos: nat, buf: seq<Byte>): (r: Read)
    requires pos <= |file|
    ensures r.pos == Min(|file|, pos + |buf|) && |r.buf| == |buf|
    ensures r.count == (if pos == |file| then -1 else r.pos - pos)
    ensures forall i :: 0 <= i < r.pos - pos ==> r.buf[i] == file[pos + i]
    ensures forall i :: r.pos - pos <= i < |buf| ==> r.buf[i] == buf[i]
  {
    if pos == |file| then Read(pos, buf, -1)
    else
      var n := Min(|file| - pos, |buf|);
      Read(pos + n, file[pos..pos + n] + buf[n..], n)
  }

  /** Confocor2 files start with a 30-byte header, Confocor3 files with a
      128-byte one; each is skipped by a single read. */
  const Confocor2Header: nat := 30
  const Confocor3Header: nat := 128

  /** Where the PicoHarp header records its number of boards. */
  const BoardsAt: nat := 340

  /** The PicoHarp header layout as the three readers walk it: 340 bytes,
      the number of boards N (the signed byte at offset 340, in a 4-byte
      word), 192 more bytes, 60 bytes per board, 96 bytes of router
      channels, 32 bytes, the image header size I (a 4-byte int at offset
      664 + 60N) and 4 bytes per image header word: 668 + 60N + 4I in all.
      A negative N or I counts as 0, since a loop up to it does nothing. */
  function Layout(boards: int, imgHdrSize: int): nat
  {
    668 + 60 * Max0(boards) + 4 * Max0(imgHdrSize)
  }

  /** Where the image header size is read, given the number of boards. */
  function ImgHdrAt(boards: int): nat
  {
    664 + 60 * Max0(boards)
  }

  /** The number of bytes a PicoHarp header reader consumes from a file. A
      file that ends inside the header is consumed to its end: every read
      after that point finds nothing, whatever stale value the reader then
      takes for N or I. */
  function PicoHeaderLength(file: seq<Byte>): (n: nat)
    ensures n <= |file|
  {
    if |file| <= BoardsAt then |file|
    else
      var boards := Signed(file[BoardsAt]);
      var q := ImgHdrAt(boards);
      if |file| < q + 4 then |file|
      else Min(|file|, Layout(boards, Byte4ToInt(file[q..q + 4])))
  }

  /** A file that holds its whole header loses exactly the header layout;
      any other file is consumed to its end. */
  lemma PicoHeaderExact(file: seq<Byte>)
    ensures var n := PicoHeaderLength(file);
      (|file| > BoardsAt && ImgHdrAt(Signed(file[BoardsAt])) + 4 <= |file| &&
        Layout(Signed(file[BoardsAt]), Byte4ToInt(file[ImgHdrAt(Signed(file[BoardsAt]))..ImgHdrAt(Signed(file[BoardsAt])) + 4])) <= |file|
       ==> n == Layout(Signed(file[BoardsAt]), Byte4ToInt(file[ImgHdrAt(Signed(file[BoardsAt]))..ImgHdrAt(Signed(file[BoardsAt])) + 4])))
    ensures var n := PicoHeaderLength(file);
      n < |file| ==> n >= 668 && (n - 668) % 4 == 0
  {
    if |file| > BoardsAt {
      var boards := Signed(file[BoardsAt]);
      var q := ImgHdrAt(boards);
      if |file| >= q + 4 {
        var l := Layout(boards, Byte4ToInt(file[q..q + 4]));
        assert (l - 668) % 4 == 0 by {
          assert l - 668 == 4 * (15 * Max0(boards) + Max0(Byte4ToInt(file[q..q + 4])));
        }
      }
    }
  }

  /** One `read` into a buffer of the given size whose contents the reader
      does not use: only the position moves. */
  method Skip(file: seq<Byte>, pos: nat, size: nat) returns (pos': nat)
    requires pos <= |file|
    ensures pos' == Min(|file|, pos + size)
  {
    var r := ReadInto(file, pos, seq(size, _ => 0));
    pos' := r.pos;
  }

  /** readHeaderConfocor2: one read of 30 bytes; it returns 1. */
  method ReadHeaderConfocor2(file: seq<Byte>) returns (result: int, pos: nat)
    ensures result == 1 && pos == Min(|file|, Confocor2Header)
  {
    pos := Skip(file, 0, Confocor2Header);
    result := 1;
  }

  /** readHeaderConfocor3: one read of 128 bytes; it returns 1. */
  method ReadHeaderConfocor3(file: seq<Byte>) returns (result: int, pos: nat)
    ensures result == 1 && pos == Min(|file|, Confocor3Header)
  {
    pos := Skip(file, 0, Confocor3Header);
    result := 1;
  }

  /** k reads of the 4-byte buffer bb4 (none when k is negative). */
  method ReadWords(file: seq<Byte>, pos: nat, bb4: seq<Byte>, k: int) returns (pos': nat, bb4': seq<Byte>)
    requires pos <= |file| && |bb4| == 4
    ensures pos' == Min(|file|, pos + 4 * Max0(k)) && |bb4'| == 4
  {
    pos', bb4' := pos, bb4;
    var ii := 0;
    while ii < k
      invariant 0 <= ii <= Max0(k) && pos' == Min(|file|, pos + 4 * ii) && |bb4'| == 4
    {
      var r := ReadInto(file, pos', bb4');
      pos', bb4' := r.pos, r.buf;
      ii := ii + 1;
    }
  }

  /** The read of a header field into bb4: when the file still holds the
      field's first byte, bb4 starts with it; when it holds all four, bb4
      is the field. */
  method ReadField(file: seq<Byte>, pos: nat, bb4: seq<Byte>) returns (pos': nat, bb4': seq<Byte>)
    requires pos <= |file| && |bb4| == 4
    ensures pos' == Min(|file|, pos + 4) && |bb4'| == 4
    ensures pos < |file| ==> bb4'[0] == file[pos]
    ensures pos + 4 <= |file| ==> bb4' == file[pos..pos + 4]
  {
    var r := ReadInto(file, pos, bb4);
    pos', bb4' := r.pos, r.buf;
  }

  /** From the field NumberOfBoards on, the walk readHeaderPicoHarpPT3 and
      readHeaderPicoHarpPT2 (long false) and readHeaderLongPicoHarpPT3 (long
      true) share: NumberOfBoards, 192 bytes (the long one reads the last
      20 of them, ScriptName, in one chunk), 60 per board, 96 for the
      router channels, 32 more, then ImgHdrSize and as many 4-byte words.
      The short readers read everything in words of bb4; the long one reads
      a board in one chunk of 60 and a router channel in chunks of 4 and 20,
      which moves the position alike. */
  method ReadBoardsOn(file: seq<Byte>, pos: nat, bb4: seq<Byte>, long: bool) returns (pos': nat)
    requires pos == Min(|file|, BoardsAt) && |bb4| == 4
    ensures pos' == PicoHeaderLength(file)
  {
    var bb := bb4;
    pos', bb := ReadField(file, pos, bb);
    var boards := Signed(bb[0]);
    if long {
      pos', bb := ReadWords(file, pos', bb, 43);
      pos' := Skip(file, pos', 20);
    } else {
      pos', bb := ReadWords(file, pos', bb, 48);
    }
    var jj := 0;
    while jj < boards
      invariant 0 <= jj <= Max0(boards) && pos' == Min(|file|, BoardsAt + 196 + 60 * jj) && |bb| == 4
    {
      if long {
        pos' := Skip(file, pos', 60);
      } else {
        pos', bb := ReadWords(file, pos', bb, 15);
      }
      jj := jj + 1;
    }
    var ch := 0;
    while ch < 4
      invariant 0 <= ch <= 4 && pos' == Min(|file|, BoardsAt + 196 + 60 * Max0(boards) + 24 * ch) && |bb| == 4
    {
      if long {
        pos', bb := ReadWords(file, pos', bb, 1);
        pos' := Skip(file, pos', 20);
      } else {
        pos', bb := ReadWords(file, pos', bb, 6);
      }
      ch := ch + 1;
    }
    pos', bb := ReadWords(file, pos', bb, 8);
    ghost var q := pos';
    assert |file| > BoardsAt ==> q == Min(|file|, ImgHdrAt(Signed(file[BoardsAt])));
    pos', bb := ReadField(file, pos', bb);
    var imgHdrSize := Byte4ToInt(bb);
    pos', bb := ReadWords(file, pos', bb, imgHdrSize);
  }

  /** readHeaderPicoHarpPT3 and readHeaderPicoHarpPT2: 85 words, then the
      shared walk; they return 1. */
  method ReadHeaderPicoHarp(file: seq<Byte>) returns (result: int, pos: nat)
    ensures result == 1 && pos == PicoHeaderLength(file)
  {
    var bb4: seq<Byte> := [0, 0, 0, 0];
    pos, bb4 := ReadWords(file, 0, bb4, 85);
    pos := ReadBoardsOn(file, pos, bb4, false);
    result := 1;
  }

  /** readHeaderLongPicoHarpPT3: the identification strings in chunks of
      16, 6, 18, 12, 18, 2 and 256 bytes and three words, then the shared
      walk; it returns 1. */
  method ReadHeaderLongPicoHarpPT3(file: seq<Byte>) returns (result: int, pos: nat)
    ensures result == 1 && pos == PicoHeaderLength(file)
  {
    var bb4: seq<Byte> := [0, 0, 0, 0];
    pos := Skip(file, 0, 16);
    pos := Skip(file, pos, 6);
    pos := Skip(file, pos, 18);
    pos := Skip(file, pos, 12);
    pos := Skip(file, pos, 18);
    pos := Skip(file, pos, 2);
    pos := Skip(file, pos, 256);
    pos, bb4 := ReadWords(file, pos, bb4, 3);
    pos := ReadBoardsOn(file, pos, bb4, true);
    result := 1;
  }
}
