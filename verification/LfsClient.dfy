/** Runs of operations on an open file against a byte sequence with a cursor. */
module LfsClient {
  import opened LfsLayout
  import opened LfsVolume
  import opened LfsDisk
  import opened Lfs

  datatype Op =
    | Putc(ch: byte)
    | Getc
    | Seek(offset: nat)
    | Read(count: nat)
    | Write(buff: seq<byte>)
    | Truncate

  /** What a caller sees: a value (or EOF or SYSERR) and the bytes read. */
  datatype Answer = Answer(value: int, bytes: seq<byte>)

  /** A byte sequence with a cursor. */
  datatype Text = Text(bytes: seq<byte>, cursor: nat)

  function Step(t: Text, op: Op): (Text, Answer) {
    match op
    case Putc(ch) =>
      if t.cursor > |t.bytes| then (t, Answer(SYSERR, []))
      else (Text(Put(t.bytes, t.cursor, ch), t.cursor + 1), Answer(OK, []))
    case Getc =>
      if t.cursor >= |t.bytes| then (t, Answer(EOF, []))
      else (t.(cursor := t.cursor + 1), Answer(t.bytes[t.cursor] as int, []))
    case Seek(offset) =>
      if offset > |t.bytes| then (t, Answer(SYSERR, []))
      else (t.(cursor := offset), Answer(OK, []))
    case Read(count) =>
      if count == 0 then (t, Answer(0, []))
      else if t.cursor >= |t.bytes| then (t, Answer(EOF, []))
      else
        var n := Min(count, |t.bytes| - t.cursor);
        (t.(cursor := t.cursor + n), Answer(n, t.bytes[t.cursor..t.cursor + n]))
    case Write(buff) =>
      if |buff| > 0 && t.cursor > |t.bytes| then (t, Answer(SYSERR, []))
      else if buff == [] then (t, Answer(0, []))
      else (Text(Overwrite(t.bytes, t.cursor, buff), t.cursor + |buff|), Answer(|buff|, []))
    case Truncate =>
      (if t.bytes == [] then t else Text([], 0), Answer(OK, []))
  }

  /** What was written is read back from where it was written, and the bytes elsewhere
      and the length are as they should be. */
  lemma WriteThenRead(t: Text, buff: seq<byte>)
    requires t.cursor <= |t.bytes| && buff != []
    ensures var (t1, a) := Step(t, Write(buff));
            var (t2, _) := Step(t1, Seek(t.cursor));
            && a == Answer(|buff|, []) && t1.cursor == t.cursor + |buff|
            && |t1.bytes| == (if t.cursor + |buff| > |t.bytes| then t.cursor + |buff| else |t.bytes|)
            && (forall i :: 0 <= i < |t.bytes| && !(t.cursor <= i < t1.cursor) ==> t1.bytes[i] == t.bytes[i])
            && Step(t2, Read(|buff|)) == (t1, Answer(|buff|, buff))
  {
    var t1 := Step(t, Write(buff)).0;
    assert t1.bytes[t.cursor..t.cursor + |buff|] == buff;
  }

  /** The same for one byte. */
  lemma PutThenGet(t: Text, ch: byte)
    requires t.cursor <= |t.bytes|
    ensures var (t1, a) := Step(t, Putc(ch));
            var (t2, _) := Step(t1, Seek(t.cursor));
            && a == Answer(OK, []) && t1.cursor == t.cursor + 1
            && |t1.bytes| == (if t.cursor == |t.bytes| then t.cursor + 1 else |t.bytes|)
            && (forall i :: 0 <= i < |t.bytes| && i != t.cursor ==> t1.bytes[i] == t.bytes[i])
            && Step(t2, Getc) == (t1, Answer(ch as int, []))
  {
  }

  /** The file that c has open, as a byte sequence with a cursor. */
  ghost function View(fs: LocalFs, c: Lflcblk): Text
    reads fs, c
  {
    Text(fs.TextOf(c), c.lfpos)
  }

  /** The blocks the operation needs are there: the source panics when a free list
      is empty. */
  ghost predicate MayDo(fs: LocalFs, c: Lflcblk, op: Op)
    reads fs, c
  {
    match op
    case Putc(ch) => fs.Room(c)
    case Write(buff) => buff != [] && c.lfpos <= fs.SizeOf(c) ==> fs.RoomFor(c, |buff|)
    case _ => true
  }

  /** The operations that change the file. */
  method DoChange(fs: LocalFs, c: Lflcblk, op: Op) returns (a: Answer)
    requires op.Putc? || op.Write? || op.Truncate?
    requires fs.Valid() && fs.Open(c) && MayDo(fs, c, op)
    modifies fs`caches, fs`vol, fs`dir, fs`diskdir, fs`dirdirty, fs.disk
    modifies c`lfinum, c`lfiblock, c`islot, c`lfibdirty, c`lfdnum, c`lfdblock, c`lfdbdirty, c`dslot, c`unsaved
    modifies c`lfbyte, c`lfpos
    ensures fs.Valid() && fs.Open(c) && SameNames(old(fs.dir), fs.dir)
    ensures (View(fs, c), a) == Step(old(View(fs, c)), op)
    ensures fs.Contents() == With(old(fs.Contents()), c.entry, fs.TextOf(c))
    ensures fs.Space(c) == old(fs.Space(c))
  {
    hide LocalFs.Core, Tight, ContentsOf, SameNames, Overwrite, Put;
    fs.EntryNow(c);
    fs.TextNow(c);
    match op {
      case Putc(ch) =>
        var status := fs.Lflputc(c, ch);
        a := Answer(status, []);
      case Write(buff) =>
        var value := fs.Lflwrite(c, buff, |buff|);
        a := Answer(value, []);
        assert buff[..|buff|] == buff;
      case Truncate =>
        var status := fs.Lftruncate(c);
        a := Answer(status, []);
    }
    fs.EntryNow(c);
    fs.TextNow(c);
  }

  /** The operations that do not. */
  method DoLook(fs: LocalFs, c: Lflcblk, op: Op) returns (a: Answer)
    requires op.Getc? || op.Seek? || op.Read?
    requires fs.Valid() && fs.Open(c)
    modifies fs`caches, fs`vol, fs`dir, fs`diskdir, fs`dirdirty, fs.disk
    modifies c`lfinum, c`lfiblock, c`islot, c`lfibdirty, c`lfdnum, c`lfdblock, c`lfdbdirty, c`dslot, c`unsaved
    modifies c`lfbyte, c`lfpos
    ensures fs.Valid() && fs.Open(c) && SameNames(old(fs.dir), fs.dir)
    ensures (View(fs, c), a) == Step(old(View(fs, c)), op)
    ensures fs.Contents() == With(old(fs.Contents()), c.entry, fs.TextOf(c))
    ensures fs.Space(c) == old(fs.Space(c))
  {
    hide LocalFs.Core, Tight, ContentsOf, SameNames;
    fs.EntryNow(c);
    fs.TextNow(c);
    SameNamesSelf(fs.dir);
    WithItself(fs, c);
    match op {
      case Getc =>
        var value := fs.Lflgetc(c);
        a := Answer(value, []);
      case Seek(offset) =>
        var status := fs.Lflseek(c, offset);
        a := Answer(status, []);
      case Read(count) =>
        var value, bytes := fs.Lflread(c, count);
        a := Answer(value, bytes);
    }
    fs.TextNow(c);
  }

  /** One operation on an open file is the operation on the byte sequence; the
      other files keep their bytes. */
  method Do(fs: LocalFs, c: Lflcblk, op: Op) returns (a: Answer)
    requires fs.Valid() && fs.Open(c) && MayDo(fs, c, op)
    modifies fs`caches, fs`vol, fs`dir, fs`diskdir, fs`dirdirty, fs.disk
    modifies c`lfinum, c`lfiblock, c`islot, c`lfibdirty, c`lfdnum, c`lfdblock, c`lfdbdirty, c`dslot, c`unsaved
    modifies c`lfbyte, c`lfpos
    ensures fs.Valid() && fs.Open(c) && SameNames(old(fs.dir), fs.dir)
    ensures (View(fs, c), a) == Step(old(View(fs, c)), op)
    ensures fs.Contents() == With(old(fs.Contents()), c.entry, fs.TextOf(c))
    ensures fs.Space(c) == old(fs.Space(c))
  {
    if op.Putc? || op.Write? || op.Truncate? {
      a := DoChange(fs, c, op);
    } else {
      a := DoLook(fs, c, op);
    }
  }

  lemma WithItself(fs: LocalFs, c: Lflcblk)
    ensures fs.Contents() == With(fs.Contents(), c.entry, fs.TextOf(c))
  {
  }

  /** The test for an open file does not hold back a second opening: the name
      that is compared with is empty once a file is open. Any file with a name
      of its own can be held by two control blocks at once. */
  method OpenTwice(fs: LocalFs, name: string) returns (r0: int, r1: int)
    requires fs.Valid() && name != "" && |name| < 16 && NameIndex(fs.dir, name) < fs.dir.nfiles
    requires fs.Unheld(NameIndex(fs.dir, name))
    requires |fs.lfltab| >= 2 && fs.lfltab[0] != fs.lfltab[1]
    requires forall k :: 0 <= k < |fs.lfltab| ==> !fs.lfltab[k].used
    modifies fs`dir, fs`caches, fs`holder, fs.lfltab
    ensures 0 <= r0 < |fs.lfltab| && 0 <= r1 < |fs.lfltab| && fs.lfltab[r0] != fs.lfltab[r1]
    ensures fs.lfltab[r0].used && fs.lfltab[r1].used && fs.lfltab[r0].entry == fs.lfltab[r1].entry
  {
    hide LocalFs.Valid;
    assert !fs.lfltab[0].used;
    r0 := fs.Lfsopen(name, true, false);
    ghost var other := if fs.lfltab[r0] == fs.lfltab[0] then 1 else 0;
    forall k | 0 <= k < |fs.lfltab| && fs.lfltab[k] != fs.lfltab[r0]
      ensures !fs.lfltab[k].used
    {
      assert fs.lfltab[k] in fs.lfltab;
    }
    assert !fs.lfltab[other].used;
    assert !fs.NameBusy(name);
    r1 := fs.Lfsopen(name, true, false);
    assert fs.lfltab[r0] in fs.lfltab;
  }
}
