/** The bytes of a SQLite-format file, decoded exactly as the ownership walker decodes them.
    Every read past the end of the file stops the program, so each decoder comes with the
    condition under which all of its reads succeed. */
module PageFile {
  import opened Words

  const PAGE_SIZE: nat := 4096

  type File = seq<byte>

  function Be16(f: File, at: nat): nat
    requires at + 2 <= |f|
  {
    256 * (f[at] as int) + f[at + 1] as int
  }

  function Be32(f: File, at: nat): (v: nat)
    requires at + 4 <= |f|
    ensures v < TWO32
  {
    0x1_0000 * Be16(f, at) + Be16(f, at + 2)
  }

  /** Whole pages only: a partial page at the end of the file is not counted. */
  function PageCount(f: File): nat { |f| / PAGE_SIZE }

  predicate InRange(f: File, p: nat) { 1 <= p <= PageCount(f) }

  function Offset(p: nat): nat
    requires p >= 1
  {
    (p - 1) * PAGE_SIZE
  }

  lemma PageInFile(f: File, p: nat)
    requires InRange(f, p)
    ensures Offset(p) + PAGE_SIZE <= |f|
  {
  }

  // ----- B-tree pages

  predicate Interior(f: File, p: nat)
    requires InRange(f, p)
  {
    PageInFile(f, p);
    f[Offset(p)] == 0x05 || f[Offset(p)] == 0x02
  }

  function CellCount(f: File, p: nat): nat
    requires InRange(f, p)
  {
    PageInFile(f, p);
    Be16(f, Offset(p) + 3)
  }

  /** Where the cell-pointer array starts. */
  function CellArray(f: File, p: nat): nat
    requires InRange(f, p)
  {
    Offset(p) + if Interior(f, p) then 12 else 8
  }

  predicate CellReadable(f: File, p: nat, i: nat)
    requires InRange(f, p)
  {
    && CellArray(f, p) + 2 * i + 2 <= |f|
    && (Interior(f, p) ==> Offset(p) + Be16(f, CellArray(f, p) + 2 * i) + 4 <= |f|)
  }

  predicate CellsReadable(f: File, p: nat, k: nat)
    requires InRange(f, p)
  {
    forall i: nat :: i < k ==> CellReadable(f, p, i)
  }

  /** Every read that the walk makes on page p stays inside the file. */
  predicate Readable(f: File, p: nat)
    requires InRange(f, p)
  {
    CellsReadable(f, p, CellCount(f, p))
  }

  /** The left-child pointer of cell i of an interior page. */
  function CellChild(f: File, p: nat, i: nat): nat
    requires InRange(f, p) && Interior(f, p) && CellReadable(f, p, i)
  {
    Be32(f, Offset(p) + Be16(f, CellArray(f, p) + 2 * i))
  }

  function RightMost(f: File, p: nat): nat
    requires InRange(f, p)
  {
    PageInFile(f, p);
    Be32(f, Offset(p) + 8)
  }

  /** The left-child pointers of the first k cells. */
  function CellChildren(f: File, p: nat, k: nat): (cs: seq<nat>)
    requires InRange(f, p) && Interior(f, p) && CellsReadable(f, p, k)
    ensures |cs| == k
    ensures forall i: nat :: i < k ==> cs[i] == CellChild(f, p, i)
  {
    if k == 0 then [] else
    CellChildren(f, p, k - 1) + [CellChild(f, p, k - 1)]
  }

  /** All child pointers of a page in slot order: the cells, then the right-most pointer.
      Slot i below the cell count is cell i; the last slot is the right-most pointer. */
  function Children(f: File, p: nat): seq<nat>
    requires InRange(f, p)
  {
    if Readable(f, p) && Interior(f, p)
    then CellChildren(f, p, CellCount(f, p)) + [RightMost(f, p)]
    else []
  }

  lemma CellSlot(f: File, p: nat, i: nat)
    requires InRange(f, p) && Readable(f, p) && Interior(f, p) && i < CellCount(f, p)
    ensures CellReadable(f, p, i) && i < |Children(f, p)| && Children(f, p)[i] == CellChild(f, p, i)
  {
  }

  lemma SlotOrder(f: File, p: nat)
    requires InRange(f, p) && Readable(f, p) && Interior(f, p)
    ensures |Children(f, p)| == CellCount(f, p) + 1
    ensures Children(f, p)[CellCount(f, p)] == RightMost(f, p)
  {
  }

  // ----- files that open

  const SQLITE_MAGIC: seq<byte> :=
    [0x53, 0x51, 0x4C, 0x69, 0x74, 0x65, 0x20, 0x66, 0x6F, 0x72, 0x6D, 0x61, 0x74, 0x20, 0x33, 0x00]

  const NATIVE_MAGIC: seq<byte> := [0x52, 0x53, 0x51, 0x4C, 0x44, 0x42, 0x30]

  lemma MagicSpells()
    ensures |SQLITE_MAGIC| == 16 && SQLITE_MAGIC[15] == 0
    ensures forall i :: 0 <= i < 15 ==> SQLITE_MAGIC[i] as int == "SQLite format 3"[i] as int
    ensures |NATIVE_MAGIC| == 7 && forall i :: 0 <= i < 7 ==> NATIVE_MAGIC[i] as int == "RSQLDB0"[i] as int
  {
  }

  /** The file starts with a header of the SQLite format. */
  predicate SqliteFile(f: File) { |f| >= 100 && f[..16] == SQLITE_MAGIC }

  /** The file starts with a header of the engine's own format, versions 3 to 6. */
  predicate NativeFile(f: File) { |f| >= 100 && f[..7] == NATIVE_MAGIC && 0x33 <= f[7] <= 0x36 }

  /** The engine opens no other files, and the walker opens its file before it reads the bytes. */
  predicate Openable(f: File) { SqliteFile(f) || NativeFile(f) }

  lemma SqliteTop(f: File)
    requires SqliteFile(f)
    ensures f[0] == 0x53 && Be16(f, 3) == 26996 && f[4] == 0x74
  {
    assert f[0] == f[..16][0] && f[3] == f[..16][3] && f[4] == f[..16][4];
  }

  lemma NativeTop(f: File)
    requires NativeFile(f)
    ensures f[0] == 0x52 && Be16(f, 3) == 19524 && f[4] == 0x44
  {
    assert f[0] == f[..7][0] && f[3] == f[..7][3] && f[4] == f[..7][4];
  }

  lemma OpenableTop(f: File)
    requires Openable(f)
    ensures f[0] != 0x05 && f[0] != 0x02 && Be32(f, 4) >= 0x4400_0000
    ensures Be16(f, 3) == if SqliteFile(f) then 26996 else 19524
  {
    if SqliteFile(f) { SqliteTop(f); } else { NativeTop(f); }
    BigWord(f, 4);
  }

  lemma BigWord(f: File, at: nat)
    requires at + 4 <= |f|
    ensures Be32(f, at) >= 0x100_0000 * (f[at] as int)
  {
  }

  /** From which length on page 1 of such a file can be walked: its magic reads as a cell count. */
  function FirstPageNeeds(f: File): nat { if SqliteFile(f) then 54_000 else 39_056 }

  /** Page 1 of a file that opens is no interior page, so it has no children, and walking it needs
      FirstPageNeeds bytes. */
  lemma FirstPage(f: File)
    requires Openable(f) && InRange(f, 1)
    ensures Children(f, 1) == [] && (Readable(f, 1) <==> |f| >= FirstPageNeeds(f))
  {
    OpenableTop(f);
    FirstCells(f, CellCount(f, 1));
  }

  lemma FirstCells(f: File, k: nat)
    requires InRange(f, 1) && !Interior(f, 1) && k > 0
    ensures CellsReadable(f, 1, k) <==> |f| >= 8 + 2 * k
  {
    assert CellArray(f, 1) == 8;
    assert CellReadable(f, 1, k - 1) <==> 8 + 2 * (k - 1) + 2 <= |f|;
  }
}
