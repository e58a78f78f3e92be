/** Runs of the whole file system: files are opened, used through several control
    blocks at once, closed and opened again. Every run gives the answers of a
    world of byte sequences with cursors. */
module LfsSession {
  import opened LfsLayout
  import opened LfsVolume
  import opened LfsDisk
  import opened Lfs
  import opened LfsClient

  /** A file device: not in use, or at a position of a file. */
  datatype Dev = Idle | On(file: nat, cursor: nat)

  /** What callers can know: the names in the directory, the bytes of each file,
      and the devices. */
  datatype World = World(names: seq<string>, texts: seq<seq<byte>>, devs: seq<Dev>)

  datatype Cmd =
    | OpenFile(name: string, mustExist: bool, mustBeNew: bool)
    | CloseDev(dev: nat)
    | Use(dev: nat, op: Op)

  /** First place of a name, or their number. */
  function Find(names: seq<string>, name: string): (e: nat)
    ensures e <= |names| && (e < |names| ==> names[e] == name) && forall i :: 0 <= i < e ==> names[i] != name
  {
    if names == [] || names[0] == name then 0 else
      var e := Find(names[1..], name);
      assert forall i :: 0 < i < 1 + e ==> names[i] == names[1..][i - 1];
      1 + e
  }

  /** First device that is not in use, or their number. */
  function FirstIdle(devs: seq<Dev>): (k: nat)
    ensures k <= |devs| && (k < |devs| ==> devs[k] == Idle) && forall i :: 0 <= i < k ==> devs[i] != Idle
  {
    if devs == [] || devs[0] == Idle then 0 else
      var k := FirstIdle(devs[1..]);
      assert forall i :: 0 < i < 1 + k ==> devs[i] == devs[1..][i - 1];
      1 + k
  }

  /** An open is refused for a name that is too long, for want of a device, if the
      mode does not fit the directory or the directory is full; and, whatever is
      open, only for the empty name as already open. */
  predicate Refused(w: World, name: string, mustExist: bool, mustBeNew: bool) {
    || |name| >= 16 || FirstIdle(w.devs) == |w.devs|
    || (name == "" && AnyOn(w.devs))
    || if Find(w.names, name) < |w.names| then mustBeNew else mustExist || |w.names| >= NUM_DIR_ENT
  }

  /** The answer of an operation on a device that is not in use. */
  function IdleAnswer(op: Op): Answer {
    match op
    case Read(count) => if count == 0 then Answer(0, []) else Answer(SYSERR, [])
    case Write(buff) => if buff == [] then Answer(0, []) else Answer(SYSERR, [])
    case _ => Answer(SYSERR, [])
  }

  function Next(w: World, cmd: Cmd): (World, Answer) {
    match cmd
    case OpenFile(name, mustExist, mustBeNew) =>
      if Refused(w, name, mustExist, mustBeNew) then (w, Answer(SYSERR, []))
      else
        var e, k := Find(w.names, name), FirstIdle(w.devs);
        (w.(names := if e < |w.names| then w.names else w.names + [name], devs := w.devs[k := On(e, 0)]), Answer(k, []))
    case CloseDev(k) =>
      if k >= |w.devs| || w.devs[k] == Idle then (w, Answer(SYSERR, []))
      else (w.(devs := w.devs[k := Idle]), Answer(OK, []))
    case Use(k, op) =>
      if k >= |w.devs| || w.devs[k] == Idle then (w, IdleAnswer(op))
      else
        var f := w.devs[k].file;
        var (t, a) := Step(Text(if f < |w.texts| then w.texts[f] else [], w.devs[k].cursor), op);
        (w.(texts := With(w.texts, f, t.bytes), devs := w.devs[k := On(f, t.cursor)]), a)
  }

  function NextAll(w: World, cmds: seq<Cmd>): (World, seq<Answer>)
    decreases |cmds|
  {
    if cmds == [] then (w, [])
    else
      var (w1, a) := Next(w, cmds[0]);
      var (w2, rest) := NextAll(w1, cmds[1..]);
      (w2, [a] + rest)
  }

  lemma {:induction false} NextAllSnoc(w: World, cmds: seq<Cmd>, cmd: Cmd)
    ensures var (u, xs) := NextAll(w, cmds);
            var (v, a) := Next(u, cmd);
            NextAll(w, cmds + [cmd]) == (v, xs + [a])
    decreases |cmds|
  {
    hide Next;
    if cmds == [] {
      assert cmds + [cmd] == [cmd] && [cmd][1..] == [];
      var (v, a) := Next(w, cmd);
      assert NextAll(v, []) == (v, []);
      assert NextAll(w, [cmd]) == (v, [a] + []);
      assert [a] + [] == [] + [a];
    } else {
      var (u, a) := Next(w, cmds[0]);
      assert (cmds + [cmd])[1..] == cmds[1..] + [cmd];
      NextAllSnoc(u, cmds[1..], cmd);
      var (v, xs) := NextAll(u, cmds[1..]);
      assert NextAll(w, cmds) == (v, [a] + xs);
      assert [a] + xs + [Next(v, cmd).1] == [a] + (xs + [Next(v, cmd).1]);
    }
  }

  // ---------------------------------------------------------- disk space

  function DataUse(texts: seq<seq<byte>>): nat {
    if texts == [] then 0 else DataBlocks(|texts[0]|) + DataUse(texts[1..])
  }

  function IndexUse(texts: seq<seq<byte>>): nat {
    if texts == [] then 0 else IndexBlocks(|texts[0]|) + IndexUse(texts[1..])
  }

  lemma {:induction false} UseUpdate(texts: seq<seq<byte>>, f: nat, t: seq<byte>)
    requires f < |texts|
    ensures DataUse(texts[f := t]) == DataUse(texts) - DataBlocks(|texts[f]|) + DataBlocks(|t|)
    ensures IndexUse(texts[f := t]) == IndexUse(texts) - IndexBlocks(|texts[f]|) + IndexBlocks(|t|)
  {
    hide DataBlocks, IndexBlocks;
    if f > 0 {
      UseUpdate(texts[1..], f - 1, t);
      assert texts[f := t][1..] == texts[1..][f - 1 := t];
    } else {
      assert texts[0 := t][1..] == texts[1..];
    }
  }

  /** What the source leaves to its callers: a file is open at most once, the
      devices named are there, and the disk has the blocks for what is written. */
  predicate May(w: World, cmd: Cmd, data: nat, index: nat) {
    match cmd
    case OpenFile(name, mustExist, mustBeNew) =>
      Refused(w, name, mustExist, mustBeNew) || forall k :: 0 <= k < |w.devs| && w.devs[k].On? ==>
        w.devs[k].file != Find(w.names, name)
    case CloseDev(k) => k < |w.devs|
    case Use(k, op) =>
      && k < |w.devs| && (w.devs[k] == Idle ==> op != Truncate)
      && DataUse(Next(w, cmd).0.texts) <= data && IndexUse(Next(w, cmd).0.texts) <= index
  }

  predicate MayAll(w: World, cmds: seq<Cmd>, data: nat, index: nat)
    decreases |cmds|
  {
    cmds == [] || (May(w, cmds[0], data, index) && MayAll(Next(w, cmds[0]).0, cmds[1..], data, index))
  }

  // --------------------------------------------------- world and file system

  function DevOf(c: Lflcblk): Dev
    reads c`used, c`entry, c`lfpos
  {
    if c.used then On(c.entry, c.lfpos) else Idle
  }

  /** Every control block in use holds its file, under no name. */
  ghost predicate Devices(fs: LocalFs)
    reads fs`holder, fs.lfltab
  {
    && (forall i, j :: 0 <= i < j < |fs.lfltab| ==> fs.lfltab[i] != fs.lfltab[j])
    && (forall k :: 0 <= k < |fs.lfltab| && fs.lfltab[k].used ==> fs.Open(fs.lfltab[k]) && fs.lfltab[k].lfname == "")
    && forall f :: 0 <= f < |fs.holder| && fs.holder[f] != null ==> fs.holder[f] in fs.lfltab
  }

  ghost predicate Names(d: Lfdir, names: seq<string>) {
    |names| == d.nfiles <= |d.files| && forall i :: 0 <= i < |names| ==> d.files[i].name == names[i]
  }

  ghost predicate Devs(fs: LocalFs, devs: seq<Dev>)
    reads fs.lfltab
  {
    |devs| == |fs.lfltab| && forall k :: 0 <= k < |devs| ==> devs[k] == DevOf(fs.lfltab[k])
  }

  ghost predicate Shows(fs: LocalFs, w: World)
    reads fs`dir, fs`vol, fs.lfltab
  {
    Names(fs.dir, w.names) && w.texts == fs.Contents() && Devs(fs, w.devs)
  }

  /** Data blocks and index blocks, free or in some file. */
  ghost predicate Space(fs: LocalFs, data: nat, index: nat)
    reads fs`dir, fs`vol
  {
    data == |fs.vol.dfl| + DataUse(fs.Contents()) && index == |fs.vol.ifl| + IndexUse(fs.Contents())
  }

  lemma FindIs(d: Lfdir, names: seq<string>, name: string)
    requires Names(d, names)
    ensures NameIndex(d, name) == Find(names, name)
  {
    hide NameIndex;
    NameIndexIs(d, name, Find(names, name));
  }

  lemma NamesKept(d: Lfdir, e: Lfdir, names: seq<string>)
    requires Names(d, names) && SameNames(d, e)
    ensures Names(e, names)
  {
  }

  lemma NamesEntered(d: Lfdir, names: seq<string>, name: string)
    requires Names(d, names) && |d.files| == NUM_DIR_ENT && (Find(names, name) < |names| || |names| < NUM_DIR_ENT)
    ensures Names(Entered(d, name), if Find(names, name) < |names| then names else names + [name])
  {
    FindIs(d, names, name);
  }

  // ------------------------------------------------------------- commands

  /** The blocks the byte sequence needs are the blocks the operation needs. */
  lemma RoomHere(fs: LocalFs, c: Lflcblk, op: Op)
    requires fs.Valid() && fs.Open(c)
    requires DataBlocks(|Step(View(fs, c), op).0.bytes|) <= fs.Space(c).0
    requires IndexBlocks(|Step(View(fs, c), op).0.bytes|) <= fs.Space(c).1
    ensures MayDo(fs, c, op)
  {
    hide LocalFs.Core, Tight, DataBlocks, IndexBlocks;
    fs.TextNow(c);
    match op
    case Putc(ch) => fs.RoomForOne(c, 1);
    case _ =>
  }

  /** Reading or writing through a device that is not in use does nothing. */
  method UseIdle(fs: LocalFs, c: Lflcblk, op: Op) returns (a: Answer)
    requires fs.Valid() && !c.used && op != Truncate
    modifies fs`caches, fs`vol, fs`dir, fs`diskdir, fs`dirdirty, fs.disk
    modifies c`lfinum, c`lfiblock, c`islot, c`lfibdirty, c`lfdnum, c`lfdblock, c`lfdbdirty, c`dslot, c`unsaved
    modifies c`lfbyte, c`lfpos
    ensures fs.Valid() && a == IdleAnswer(op) && fs.dir == old(fs.dir) && fs.vol == old(fs.vol)
  {
    hide LocalFs.Core, Tight, ContentsOf;
    match op {
      case Putc(ch) =>
        var status := fs.Lflputc(c, ch);
        a := Answer(status, []);
      case Getc =>
        var value := fs.Lflgetc(c);
        a := Answer(value, []);
      case Seek(offset) =>
        var status := fs.Lflseek(c, offset);
        a := Answer(status, []);
      case Read(count) =>
        var value, bytes := fs.Lflread(c, count);
        a := Answer(value, bytes);
      case Write(buff) =>
        var value := fs.Lflwrite(c, buff, |buff|);
        a := Answer(value, []);
    }
  }

  method DoUse(fs: LocalFs, k: nat, op: Op, ghost w: World, ghost data: nat, ghost index: nat) returns (a: Answer)
    requires fs.Valid() && Devices(fs) && Shows(fs, w) && Space(fs, data, index) && May(w, Use(k, op), data, index)
    modifies fs`caches, fs`vol, fs`dir, fs`diskdir, fs`dirdirty, fs.disk, fs.lfltab
    ensures fs.Valid() && Devices(fs) && Shows(fs, Next(w, Use(k, op)).0) && Space(fs, data, index)
    ensures a == Next(w, Use(k, op)).1
  {
    hide LocalFs.Valid, ContentsOf, SameNames, Step, DataBlocks, IndexBlocks, DataUse, IndexUse, Names;
    var c := fs.lfltab[k];
    assert w.devs[k] == DevOf(c);
    if !c.used {
      a := UseIdle(fs, c, op);
      assert w.devs == w.devs;
    } else {
      fs.TextNow(c);
      UseUpdate(w.texts, c.entry, Step(View(fs, c), op).0.bytes);
      RoomHere(fs, c, op);
      NamesAfter(fs.dir, w.names);
      a := Do(fs, c, op);
      fs.TextNow(c);
    }
  }

  lemma NamesAfter(d: Lfdir, names: seq<string>)
    requires Names(d, names)
    ensures forall e :: SameNames(d, e) ==> Names(e, names)
  {
    forall e | SameNames(d, e)
      ensures Names(e, names)
    {
      NamesKept(d, e, names);
    }
  }

  method DoClose(fs: LocalFs, k: nat, ghost w: World, ghost data: nat, ghost index: nat) returns (a: Answer)
    requires fs.Valid() && Devices(fs) && Shows(fs, w) && Space(fs, data, index) && May(w, CloseDev(k), data, index)
    modifies fs`caches, fs`holder, fs`diskdir, fs`dirdirty, fs.disk, fs.lfltab
    ensures fs.Valid() && Devices(fs) && Shows(fs, Next(w, CloseDev(k)).0) && Space(fs, data, index)
    ensures a == Next(w, CloseDev(k)).1
  {
    hide LocalFs.Valid, ContentsOf, DataUse, IndexUse, Names;
    var c := fs.lfltab[k];
    assert w.devs[k] == DevOf(c);
    assert fs.lfltab[k] in fs.lfltab;
    var status := fs.Lflclose(c);
    a := Answer(status, []);
    forall j | 0 <= j < |fs.lfltab| && j != k
      ensures DevOf(fs.lfltab[j]) == old(DevOf(fs.lfltab[j])) && fs.lfltab[j] != c
    {
    }
    forall j | 0 <= j < |fs.lfltab| && fs.lfltab[j].used
      ensures fs.Open(fs.lfltab[j]) && fs.lfltab[j].lfname == ""
    {
      assert j != k && old(fs.lfltab[j].used);
    }
  }

  lemma DirSizes(fs: LocalFs)
    requires fs.Valid()
    ensures fs.dir.nfiles <= |fs.dir.files| == NUM_DIR_ENT == |fs.holder|
  {
    fs.DirNow();
  }

  /** A file that no device has open is held by nobody. */
  lemma HeldDevices(fs: LocalFs, w: World, e: nat)
    requires Devices(fs) && Devs(fs, w.devs) && e < |fs.holder| && fs.Valid()
    ensures (forall k :: 0 <= k < |w.devs| && w.devs[k].On? ==> w.devs[k].file != e) ==> fs.Unheld(e)
  {
    hide FsOk, Tight;
    if fs.holder[e] != null {
      var k :| 0 <= k < |fs.lfltab| && fs.lfltab[k] == fs.holder[e];
      assert w.devs[k] == DevOf(fs.lfltab[k]);
    }
  }

  predicate AnyOn(devs: seq<Dev>) {
    exists k :: 0 <= k < |devs| && devs[k].On?
  }

  lemma BusyIs(fs: LocalFs, w: World, name: string)
    requires Devices(fs) && Devs(fs, w.devs)
    ensures fs.NameBusy(name) <==> name == "" && AnyOn(w.devs)
    ensures fs.DeviceFree() <==> FirstIdle(w.devs) < |w.devs|
  {
    hide FirstIdle, LocalFs.Open;
    forall k | 0 <= k < |w.devs|
      ensures w.devs[k].On? <==> fs.lfltab[k].used
    {
      assert w.devs[k] == DevOf(fs.lfltab[k]);
    }
    if AnyOn(w.devs) {
      var k :| 0 <= k < |w.devs| && w.devs[k].On?;
      assert fs.lfltab[k].used;
    }
    if FirstIdle(w.devs) < |w.devs| { assert !fs.lfltab[FirstIdle(w.devs)].used; }
  }

  /** The tests of lfsopen as seen from outside. */
  lemma RefusedIs(fs: LocalFs, w: World, name: string, mustExist: bool, mustBeNew: bool)
    requires Devices(fs) && Names(fs.dir, w.names) && Devs(fs, w.devs)
    ensures NameIndex(fs.dir, name) == Find(w.names, name)
    ensures Refused(w, name, mustExist, mustBeNew) <==>
              !(|name| < 16 && !fs.NameBusy(name) && fs.DeviceFree() && Allowed(fs.dir, name, mustExist, mustBeNew))
  {
    FindIs(fs.dir, w.names, name);
    SameCount(fs, w);
    BusyIs(fs, w, name);
    hide Find, FirstIdle, NameIndex, Devices, Devs, Names, AnyOn, LocalFs.NameBusy, LocalFs.DeviceFree;
  }

  lemma BeforeOpen(fs: LocalFs, w: World, name: string, mustExist: bool, mustBeNew: bool)
    requires fs.Valid() && Devices(fs) && Names(fs.dir, w.names) && Devs(fs, w.devs)
    ensures NameIndex(fs.dir, name) == Find(w.names, name)
    ensures Refused(w, name, mustExist, mustBeNew) <==>
              !(|name| < 16 && !fs.NameBusy(name) && fs.DeviceFree() && Allowed(fs.dir, name, mustExist, mustBeNew))
    ensures !Refused(w, name, mustExist, mustBeNew) && May(w, OpenFile(name, mustExist, mustBeNew), 0, 0) ==>
              fs.Unheld(Find(w.names, name))
    ensures !Refused(w, name, mustExist, mustBeNew) ==>
              Names(Entered(fs.dir, name), if Find(w.names, name) < |w.names| then w.names else w.names + [name])
  {
    hide LocalFs.Valid, Find, FirstIdle, NameIndex, Entered, LocalFs.NameBusy, LocalFs.DeviceFree, Devices, Devs,
      Names, LocalFs.Unheld, AnyOn, Allowed;
    RefusedIs(fs, w, name, mustExist, mustBeNew);
    DirSizes(fs);
    var e := Find(w.names, name);
    if e < NUM_DIR_ENT { HeldDevices(fs, w, e); }
    SameCount(fs, w);
    if e < |w.names| || |w.names| < NUM_DIR_ENT { NamesEntered(fs.dir, w.names, name); }
  }

  lemma SameCount(fs: LocalFs, w: World)
    requires Names(fs.dir, w.names)
    ensures |w.names| == fs.dir.nfiles
  {
  }

  method DoOpen(fs: LocalFs, name: string, mustExist: bool, mustBeNew: bool, ghost w: World, ghost data: nat,
      ghost index: nat) returns (a: Answer)
    requires fs.Valid() && Devices(fs) && Shows(fs, w) && Space(fs, data, index)
    requires May(w, OpenFile(name, mustExist, mustBeNew), data, index)
    modifies fs`dir, fs`caches, fs`holder, fs.lfltab
    ensures fs.Valid() && Devices(fs) && Space(fs, data, index)
    ensures Shows(fs, Next(w, OpenFile(name, mustExist, mustBeNew)).0)
    ensures a == Next(w, OpenFile(name, mustExist, mustBeNew)).1
  {
    hide LocalFs.Valid, ContentsOf, DataUse, IndexUse, Names, Find, FirstIdle, NameIndex, Entered, Refused,
      LocalFs.NameBusy, LocalFs.DeviceFree, Allowed;
    BeforeOpen(fs, w, name, mustExist, mustBeNew);
    assert forall k :: 0 <= k < |w.devs| ==> w.devs[k] == DevOf(fs.lfltab[k]);
    var r := fs.Lfsopen(name, mustExist, mustBeNew);
    a := Answer(r, []);
    assert r != SYSERR ==> fs.lfltab[r] in fs.lfltab && r == FirstIdle(w.devs);
    forall j | 0 <= j < |fs.lfltab| && fs.lfltab[j].used
      ensures fs.Open(fs.lfltab[j]) && fs.lfltab[j].lfname == ""
    {
      assert fs.lfltab[j] in fs.lfltab;
    }
  }

  /** One command is the command on the world. */
  method DoCmd(fs: LocalFs, cmd: Cmd, ghost w: World, ghost data: nat, ghost index: nat) returns (a: Answer)
    requires fs.Valid() && Devices(fs) && Shows(fs, w) && Space(fs, data, index) && May(w, cmd, data, index)
    modifies fs`caches, fs`holder, fs`vol, fs`dir, fs`diskdir, fs`dirdirty, fs.disk, fs.lfltab
    ensures fs.Valid() && Devices(fs) && Space(fs, data, index) && Shows(fs, Next(w, cmd).0) && a == Next(w, cmd).1
  {
    hide LocalFs.Valid, Devices, Shows, Space, May, Next;
    match cmd {
      case OpenFile(name, mustExist, mustBeNew) => a := DoOpen(fs, name, mustExist, mustBeNew, w, data, index);
      case CloseDev(k) => a := DoClose(fs, k, w, data, index);
      case Use(k, op) => a := DoUse(fs, k, op, w, data, index);
    }
  }

  /** Every run of opening, using and closing files, through any number of devices
      at once, answers as the world does, and leaves its bytes, names and devices.
      The blocks in use and the free ones always add up to the same number. */
  method Session(fs: LocalFs, cmds: seq<Cmd>, ghost w: World, ghost data: nat, ghost index: nat)
      returns (answers: seq<Answer>)
    requires fs.Valid() && Devices(fs) && Shows(fs, w) && Space(fs, data, index) && MayAll(w, cmds, data, index)
    modifies fs`caches, fs`holder, fs`vol, fs`dir, fs`diskdir, fs`dirdirty, fs.disk, fs.lfltab
    ensures fs.Valid() && Devices(fs) && Space(fs, data, index)
    ensures Shows(fs, NextAll(w, cmds).0) && answers == NextAll(w, cmds).1
  {
    hide LocalFs.Valid, Devices, Shows, Space, May, Next;
    ghost var now := w;
    answers := [];
    var k := 0;
    assert cmds[..0] == [] && cmds[0..] == cmds;
    while k < |cmds|
      invariant k <= |cmds| && fs.Valid() && Devices(fs) && Space(fs, data, index)
      invariant Shows(fs, now) && (now, answers) == NextAll(w, cmds[..k]) && MayAll(now, cmds[k..], data, index)
    {
      assert cmds[k..][0] == cmds[k] && cmds[k..][1..] == cmds[k + 1..];
      NextAllSnoc(w, cmds[..k], cmds[k]);
      assert cmds[..k + 1] == cmds[..k] + [cmds[k]];
      var a := DoCmd(fs, cmds[k], now, data, index);
      now := Next(now, cmds[k]).0;
      answers := answers + [a];
      k := k + 1;
    }
    assert cmds[..k] == cmds;
  }

  // ------------------------------------------------------- from a new disk

  /** Nothing in the directory, no bytes, and every device idle. */
  function NewWorld(devices: nat): World {
    World([], Empties(NUM_DIR_ENT), seq(devices, _ => Idle))
  }

  function Empties(n: nat): seq<seq<byte>> {
    seq(n, _ => [])
  }

  lemma {:induction false} NoUse(n: nat)
    ensures DataUse(Empties(n)) == 0 && IndexUse(Empties(n)) == 0
  {
    if n > 0 {
      NoUse(n - 1);
      assert Empties(n)[1..] == Empties(n - 1);
    }
  }

  /** A formatted disk that was taken into use is a new world, all of whose blocks
      are free. */
  lemma NewShows(fs: LocalFs, g: Geometry)
    requires GeometryOk(g) && 1 < g.d0 && fs.vol == FreshVol(g) && fs.dir == FreshDir(g.d0 - 1)
    requires fs.holder == seq(NUM_DIR_ENT, _ => null)
    requires forall k :: 0 <= k < |fs.lfltab| ==> !fs.lfltab[k].used
    requires forall i, j :: 0 <= i < j < |fs.lfltab| ==> fs.lfltab[i] != fs.lfltab[j]
    ensures Devices(fs) && Shows(fs, NewWorld(|fs.lfltab|)) && Space(fs, g.nsect - g.d0, g.ni)
  {
    NoUse(NUM_DIR_ENT);
    assert fs.Contents() == Empties(NUM_DIR_ENT);
  }

  /** A disk is formatted and taken into use, and any run follows. The answers are
      those of the empty world, in which the disk has as many blocks as its size
      and the index blocks asked for leave room for. */
  method FormatAndUse(disk: array<Sector>, lfltab: seq<Lflcblk>, lfiblks: int32, dsiz: uint32, cmds: seq<Cmd>)
    returns (status: int, fs: LocalFs?, answers: seq<Answer>)
    requires disk.Length == dsiz / BLKSIZ && 1 <= IndexSectors(lfiblks)
    requires IndexSectors(lfiblks) <= dsiz / BLKSIZ / 2 ==>
               && IndexSectors(lfiblks) + 1 < dsiz / BLKSIZ
               && MayAll(NewWorld(|lfltab|), cmds, dsiz / BLKSIZ - IndexSectors(lfiblks) - 1, 7 * IndexSectors(lfiblks))
    requires forall k :: 0 <= k < |lfltab| ==> !lfltab[k].used
    requires forall i, j :: 0 <= i < j < |lfltab| ==> lfltab[i] != lfltab[j]
    modifies disk, lfltab
    ensures status == SYSERR <==> IndexSectors(lfiblks) > dsiz / BLKSIZ / 2
    ensures status == SYSERR ==> fs == null && answers == []
    ensures status != SYSERR ==> fs != null && fs.Valid() && Devices(fs) && fs.lfltab == lfltab
    ensures status != SYSERR ==>
              Shows(fs, NextAll(NewWorld(|lfltab|), cmds).0) && answers == NextAll(NewWorld(|lfltab|), cmds).1
    ensures status != SYSERR ==> Space(fs, dsiz / BLKSIZ - IndexSectors(lfiblks) - 1, 7 * IndexSectors(lfiblks))
  {
    hide FsOk, DirFits, Tight, IndexSectors, LocalFs.Valid, Shows, Space, NextAll, MayAll, NewWorld, FreshVol, FreshDir;
    var dir;
    status, dir := Lfscreate(disk, lfiblks, dsiz);
    fs, answers := null, [];
    if status != SYSERR {
      ghost var g := FormatOf(lfiblks, dsiz);
      fs := new LocalFs.Mount(disk, lfltab, dir, g, FreshVol(g));
      NewShows(fs, g);
      answers := Session(fs, cmds, NewWorld(|lfltab|), g.nsect - g.d0, g.ni);
    }
  }
}
