/**
 The content-addressed store (internal/ccr/store.go) as a protocol over one file
 system: any number of Puts, Gets and confirmed Cleanups, interleaved step by step,
 with partial writes, failures and crashes anywhere.

 Directory entries point to inodes, so writing to or reading from a file that has
 been unlinked in the meantime is part of the model. SHA-256 is a parameter: any
 function from byte strings to 64 lower-case hex digits. Rename is atomic, and a
 temporary name is never used twice.
 */
module Store {
  import opened Outcome
  import opened Marker

  newtype byte = x: int | 0 <= x < 256

  /** Go cannot hold a longer slice. */
  type Bytes = s: seq<byte> | |s| <= MaxInt64

  predicate IsDigest(s: string) {
    |s| == SHA256HexLength && forall i :: 0 <= i < |s| ==> '0' <= s[i] <= '9' || 'a' <= s[i] <= 'f'
  }

  type Digest = s: string | IsDigest(s) witness seq(SHA256HexLength, _ => '0')

  type Hash = Bytes -> Digest

  function AddressForContent(hash: Hash, content: Bytes): Address {
    Address(AlgorithmSHA256, hash(content), |content|)
  }

  lemma AddressIsValid(hash: Hash, content: Bytes)
    ensures ValidAddress(AddressForContent(hash, content))
  {
    AsciiByteLen(hash(content));
  }

  // ----- The file system -----

  /** Files below the objects directory: final objects, named by digest, and the
      temporary files next to them. */
  datatype Path = Object(hex: string) | Temp(n: nat)

  datatype Inode = Inode(bytes: Bytes, modTime: int)

  datatype Disk = Disk(dir: map<Path, nat>, inodes: map<nat, Inode>, nextIno: nat, nextTemp: nat)

  function CreateTemp(d: Disk, time: int): Disk {
    Disk(d.dir[Temp(d.nextTemp) := d.nextIno], d.inodes[d.nextIno := Inode([], time)], d.nextIno + 1, d.nextTemp + 1)
  }

  function WriteTo(d: Disk, ino: nat, bytes: Bytes, time: int): Disk {
    d.(inodes := d.inodes[ino := Inode(bytes, time)])
  }

  function Rename(d: Disk, temp: nat, hex: string): Disk
    requires Temp(temp) in d.dir
  {
    d.(dir := (d.dir - {Temp(temp)})[Object(hex) := d.dir[Temp(temp)]])
  }

  function Unlink(d: Disk, path: Path): Disk {
    d.(dir := d.dir - {path})
  }

  // ----- Processes -----

  datatype GetResult = Content(bytes: Bytes) | NotFound | Corrupt(read: Bytes) | Failed

  datatype Proc =
    | PutStat(content: Bytes)
    | PutCreate(content: Bytes)
    | PutWrite(content: Bytes, temp: nat, ino: nat)
    | PutRename(content: Bytes, temp: nat, ino: nat)
    | PutRemove(content: Bytes, temp: nat, ok: bool)
    | PutDone(content: Bytes, ok: bool)
    | GetOpen(address: Address)
    | GetRead(address: Address, ino: nat, got: Bytes)
    | GetDone(address: Address, result: GetResult)
    | CleanWalk(listed: set<Path>)
    | CleanRemove(pending: set<Path>)
    | Crashed

  /** `contents` is a history: every content stored before the run or handed to a Put. */
  datatype State = State(disk: Disk, procs: map<nat, Proc>, contents: set<Bytes>)

  datatype Event =
    | StartPut(content: Bytes)
    | StatHit | StatMiss | SetupFails  // a failing stat, directory or temporary file
    | MakeTemp(time: int)
    | WriteSome(n: nat, time: int)
    | Close
    | WriteFails
    | RenameDone | RenameExists | RenameFails
    | RemoveTemp | RemoveTempFails
    | StartGet(address: Address)
    | OpenHit | OpenMiss
    | ReadSome(n: nat)
    | ReadEnd
    | ReadFails
    | StartCleanup
    | Visit(path: Path)
    | Choose(remove: set<Path>)
    | Evict(path: Path) | EvictFails(path: Path)
    | Crash

  function At(s: State, p: nat): Proc
    requires p in s.procs
  {
    s.procs[p]
  }

  /** When process p can take the step. */
  predicate Enabled(hash: Hash, s: State, p: nat, e: Event) {
    if e.StartPut? || e.StartGet? || e.StartCleanup? then
      p !in s.procs && (e.StartGet? ==> ValidAddress(e.address))
    else
      && p in s.procs
      && var proc := s.procs[p];
         match e
         case StatHit => proc.PutStat? && Object(hash(proc.content)) in s.disk.dir
         case StatMiss => proc.PutStat? && Object(hash(proc.content)) !in s.disk.dir
         case SetupFails => proc.PutStat? || proc.PutCreate?
         case MakeTemp(_) => proc.PutCreate?
         case WriteSome(n, _) =>
           proc.PutWrite? && proc.ino in s.disk.inodes && |s.disk.inodes[proc.ino].bytes| <= n <= |proc.content|
         case Close => proc.PutWrite? && proc.ino in s.disk.inodes && s.disk.inodes[proc.ino].bytes == proc.content
         case WriteFails => proc.PutWrite?
         case RenameDone => proc.PutRename? && Temp(proc.temp) in s.disk.dir
         case RenameExists => proc.PutRename? && Object(hash(proc.content)) in s.disk.dir
         case RenameFails => proc.PutRename?
         case RemoveTemp | RemoveTempFails => proc.PutRemove?
         case OpenHit => proc.GetOpen? && Object(proc.address.hex) in s.disk.dir
         case OpenMiss => proc.GetOpen? && Object(proc.address.hex) !in s.disk.dir
         case ReadSome(n) =>
           proc.GetRead? && proc.ino in s.disk.inodes && |proc.got| <= n <= |s.disk.inodes[proc.ino].bytes|
         case ReadEnd => proc.GetRead? && proc.ino in s.disk.inodes && |proc.got| == |s.disk.inodes[proc.ino].bytes|
         case ReadFails => proc.GetOpen? || proc.GetRead?
         case Visit(path) => proc.CleanWalk? && path in s.disk.dir
         case Choose(remove) => proc.CleanWalk? && remove <= proc.listed
         case Evict(path) => proc.CleanRemove? && path in proc.pending
         case EvictFails(path) => proc.CleanRemove? && path in proc.pending
         case Crash => true
         case _ => false
  }

  /** The process after its step, and the disk it leaves behind. */
  function Moved(hash: Hash, s: State, p: nat, e: Event): (Proc, Disk)
    requires Enabled(hash, s, p, e)
  {
    var d := s.disk;
    match e
    case StartPut(content) => (PutStat(content), d)
    case StartGet(address) => (GetOpen(address), d)
    case StartCleanup => (CleanWalk({}), d)
    case StatHit => (PutDone(At(s, p).content, true), d)
    case StatMiss => (PutCreate(At(s, p).content), d)
    case SetupFails => (PutDone(At(s, p).content, false), d)
    case MakeTemp(time) => (PutWrite(At(s, p).content, d.nextTemp, d.nextIno), CreateTemp(d, time))
    case WriteSome(n, time) => (At(s, p), WriteTo(d, At(s, p).ino, At(s, p).content[..n], time))
    case Close => (PutRename(At(s, p).content, At(s, p).temp, At(s, p).ino), d)
    case WriteFails => (PutRemove(At(s, p).content, At(s, p).temp, false), d)
    case RenameDone =>
      (PutRemove(At(s, p).content, At(s, p).temp, true), Rename(d, At(s, p).temp, hash(At(s, p).content)))
    case RenameExists => (PutRemove(At(s, p).content, At(s, p).temp, true), d)
    case RenameFails => (PutRemove(At(s, p).content, At(s, p).temp, false), d)
    case RemoveTemp => (PutDone(At(s, p).content, At(s, p).ok), Unlink(d, Temp(At(s, p).temp)))
    case RemoveTempFails => (PutDone(At(s, p).content, At(s, p).ok), d)
    case OpenHit => (GetRead(At(s, p).address, d.dir[Object(At(s, p).address.hex)], []), d)
    case OpenMiss => (GetDone(At(s, p).address, NotFound), d)
    case ReadSome(n) => (At(s, p).(got := d.inodes[At(s, p).ino].bytes[..n]), d)
    case ReadEnd =>
      var got := At(s, p).got;
      var matches := AddressForContent(hash, got) == At(s, p).address;
      (GetDone(At(s, p).address, if matches then Content(got) else Corrupt(got)), d)
    case ReadFails => (GetDone(At(s, p).address, Failed), d)
    case Visit(path) => (CleanWalk(At(s, p).listed + {path}), d)
    case Choose(remove) => (CleanRemove(remove), d)
    case Evict(path) => (CleanRemove(At(s, p).pending - {path}), Unlink(d, path))
    case EvictFails(path) => (CleanRemove(At(s, p).pending - {path}), d)
    case Crash => (Crashed, d)
  }

  function Step(hash: Hash, s: State, p: nat, e: Event): State
    requires Enabled(hash, s, p, e)
  {
    var (proc, disk) := Moved(hash, s, p, e);
    State(disk, s.procs[p := proc], if e.StartPut? then s.contents + {e.content} else s.contents)
  }

  // ----- The invariant -----

  /** Complete bytes of a known content, filed under their digest. */
  predicate Filed(hash: Hash, contents: set<Bytes>, bytes: Bytes, hex: string) {
    hash(bytes) == hex && bytes in contents
  }

  predicate DiskOk(hash: Hash, d: Disk, contents: set<Bytes>) {
    && (forall path :: path in d.dir ==> d.dir[path] in d.inodes)
    && (forall i :: i in d.inodes ==> i < d.nextIno)
    && (forall path :: path in d.dir && path.Temp? ==> path.n < d.nextTemp)
    && (forall path :: path in d.dir && path.Object? ==> Filed(hash, contents, d.inodes[d.dir[path]].bytes, path.hex))
  }

  /** Every entry that leads to this inode is the process's own temporary file. */
  predicate Private(d: Disk, temp: nat, ino: nat) {
    forall path :: path in d.dir && d.dir[path] == ino ==> path == Temp(temp)
  }

  predicate OwnTemp(d: Disk, temp: nat, ino: nat) {
    temp < d.nextTemp && (Temp(temp) in d.dir ==> d.dir[Temp(temp)] == ino)
  }

  predicate ProcOk(hash: Hash, d: Disk, contents: set<Bytes>, proc: Proc) {
    match proc
    case PutStat(c) => c in contents
    case PutCreate(c) => c in contents
    case PutWrite(c, temp, ino) =>
      c in contents && ino in d.inodes && d.inodes[ino].bytes <= c && OwnTemp(d, temp, ino) && Private(d, temp, ino)
    case PutRename(c, temp, ino) =>
      c in contents && ino in d.inodes && d.inodes[ino].bytes == c && OwnTemp(d, temp, ino)
    case GetRead(a, ino, got) =>
      ino in d.inodes && Filed(hash, contents, d.inodes[ino].bytes, a.hex) && got <= d.inodes[ino].bytes
    case GetDone(a, Content(b)) => b in contents && AddressForContent(hash, b) == a
    case GetDone(a, Corrupt(b)) => Filed(hash, contents, b, a.hex) && AddressForContent(hash, b) != a
    case _ => true
  }

  /** The inode a process has open. */
  predicate Holds(proc: Proc, ino: nat) {
    (proc.PutWrite? || proc.PutRename? || proc.GetRead?) && proc.ino == ino
  }

  /** Nobody else has a file open that is still being written. */
  predicate Exclusive(procs: map<nat, Proc>) {
    forall p, q :: p in procs && q in procs && p != q && procs[p].PutWrite? ==> !Holds(procs[q], procs[p].ino)
  }

  predicate ProcsOk(hash: Hash, d: Disk, contents: set<Bytes>, procs: map<nat, Proc>) {
    forall p :: p in procs ==> ProcOk(hash, d, contents, procs[p])
  }

  predicate Inv(hash: Hash, s: State) {
    && DiskOk(hash, s.disk, s.contents)
    && ProcsOk(hash, s.disk, s.contents, s.procs)
    && Exclusive(s.procs)
  }

  // ----- What a step does to the other processes -----

  /** The disk changed in a way that cannot disturb a process. */
  predicate Harmless(d: Disk, d': Disk, proc: Proc) {
    && d.nextTemp <= d'.nextTemp
    && (forall i :: Holds(proc, i) && i in d.inodes ==> i in d'.inodes && d'.inodes[i].bytes == d.inodes[i].bytes)
    && (proc.PutWrite? || proc.PutRename? ==> OwnTemp(d, proc.temp, proc.ino) ==> OwnTemp(d', proc.temp, proc.ino))
    && (proc.PutWrite? ==> Private(d, proc.temp, proc.ino) ==> Private(d', proc.temp, proc.ino))
  }

  lemma HarmlessKeeps(hash: Hash, d: Disk, d': Disk, contents: set<Bytes>, contents': set<Bytes>, proc: Proc)
    requires ProcOk(hash, d, contents, proc) && Harmless(d, d', proc) && contents <= contents'
    ensures ProcOk(hash, d', contents', proc)
  {
    match proc
    case PutWrite(_, _, ino) => assert Holds(proc, ino);
    case PutRename(_, _, ino) => assert Holds(proc, ino);
    case GetRead(_, ino, _) => assert Holds(proc, ino);
    case _ =>
  }

  /** A step keeps the invariant if it keeps the disk sound, leaves its own process
      sound, disturbs no other, and opens no file that is being written. */
  lemma StepKeepsInv(hash: Hash, s: State, p: nat, s': State)
    requires Inv(hash, s)
    requires p in s'.procs && s'.procs == s.procs[p := s'.procs[p]] && s.contents <= s'.contents
    requires DiskOk(hash, s'.disk, s'.contents)
    requires ProcOk(hash, s'.disk, s'.contents, s'.procs[p])
    requires forall q :: q in s.procs && q != p ==> Harmless(s.disk, s'.disk, s.procs[q])
    requires forall q :: q in s.procs && q != p && s.procs[q].PutWrite? ==> !Holds(s'.procs[p], s.procs[q].ino)
    requires s'.procs[p].PutWrite? ==> forall q :: q in s.procs && q != p ==> !Holds(s.procs[q], s'.procs[p].ino)
    ensures Inv(hash, s')
  {
    forall q | q in s'.procs ensures ProcOk(hash, s'.disk, s'.contents, s'.procs[q]) {
      if q != p {
        HarmlessKeeps(hash, s.disk, s'.disk, s.contents, s'.contents, s.procs[q]);
      }
    }
  }

  lemma UnlinkHarmless(d: Disk, path: Path, proc: Proc)
    ensures Harmless(d, Unlink(d, path), proc)
  {
  }

  lemma CreateHarmless(hash: Hash, d: Disk, time: int, contents: set<Bytes>, proc: Proc)
    requires DiskOk(hash, d, contents) && ProcOk(hash, d, contents, proc)
    ensures Harmless(d, CreateTemp(d, time), proc)
  {
  }

  lemma WriteHarmless(d: Disk, ino: nat, bytes: Bytes, time: int, proc: Proc)
    requires !Holds(proc, ino)
    ensures Harmless(d, WriteTo(d, ino, bytes, time), proc)
  {
  }

  lemma RenameHarmless(d: Disk, temp: nat, hex: string, proc: Proc)
    requires Temp(temp) in d.dir && (proc.PutWrite? ==> proc.ino != d.dir[Temp(temp)])
    ensures Harmless(d, Rename(d, temp, hex), proc)
  {
  }

  // ----- The steps that touch the disk -----

  lemma MakeTempKeepsInv(hash: Hash, s: State, p: nat, time: int)
    requires Inv(hash, s) && Enabled(hash, s, p, MakeTemp(time))
    ensures Inv(hash, Step(hash, s, p, MakeTemp(time)))
  {
    var s' := Step(hash, s, p, MakeTemp(time));
    forall q | q in s.procs && q != p
      ensures Harmless(s.disk, s'.disk, s.procs[q]) && !Holds(s.procs[q], s.disk.nextIno)
    {
      CreateHarmless(hash, s.disk, time, s.contents, s.procs[q]);
    }
    StepKeepsInv(hash, s, p, s');
  }

  lemma WriteKeepsInv(hash: Hash, s: State, p: nat, n: nat, time: int)
    requires Inv(hash, s) && Enabled(hash, s, p, WriteSome(n, time))
    ensures Inv(hash, Step(hash, s, p, WriteSome(n, time)))
  {
    var s' := Step(hash, s, p, WriteSome(n, time));
    var proc := s.procs[p];
    forall q | q in s.procs && q != p ensures Harmless(s.disk, s'.disk, s.procs[q]) {
      WriteHarmless(s.disk, proc.ino, proc.content[..n], time, s.procs[q]);
    }
    StepKeepsInv(hash, s, p, s');
  }

  lemma RenameKeepsInv(hash: Hash, s: State, p: nat)
    requires Inv(hash, s) && Enabled(hash, s, p, RenameDone)
    ensures Inv(hash, Step(hash, s, p, RenameDone))
  {
    var s' := Step(hash, s, p, RenameDone);
    var proc := s.procs[p];
    forall q | q in s.procs && q != p ensures Harmless(s.disk, s'.disk, s.procs[q]) {
      assert s.procs[q].PutWrite? ==> !Holds(proc, s.procs[q].ino);
      RenameHarmless(s.disk, proc.temp, hash(proc.content), s.procs[q]);
    }
    StepKeepsInv(hash, s, p, s');
  }

  lemma UnlinkKeepsInv(hash: Hash, s: State, p: nat, e: Event)
    requires Inv(hash, s) && (e.RemoveTemp? || e.Evict?) && Enabled(hash, s, p, e)
    ensures Inv(hash, Step(hash, s, p, e))
  {
    var s' := Step(hash, s, p, e);
    forall q | q in s.procs && q != p ensures Harmless(s.disk, s'.disk, s.procs[q]) {
      UnlinkHarmless(s.disk, if e.Evict? then e.path else Temp(s.procs[p].temp), s.procs[q]);
    }
    StepKeepsInv(hash, s, p, s');
  }

  /** The remaining steps leave the disk alone. */
  lemma QuietKeepsInv(hash: Hash, s: State, p: nat, e: Event)
    requires Inv(hash, s) && Enabled(hash, s, p, e)
    requires !e.MakeTemp? && !e.WriteSome? && !e.RenameDone? && !e.RemoveTemp? && !e.Evict?
    ensures Inv(hash, Step(hash, s, p, e))
  {
    var s' := Step(hash, s, p, e);
    assert s'.disk == s.disk;
    QuietProc(hash, s, p, e);
    StepKeepsInv(hash, s, p, s');
  }

  lemma QuietProc(hash: Hash, s: State, p: nat, e: Event)
    requires Inv(hash, s) && Enabled(hash, s, p, e)
    requires !e.MakeTemp? && !e.WriteSome? && !e.RenameDone? && !e.RemoveTemp? && !e.Evict?
    ensures var s' := Step(hash, s, p, e);
            && ProcOk(hash, s.disk, s'.contents, s'.procs[p])
            && (s'.procs[p].PutWrite? ==> p in s.procs && s.procs[p] == s'.procs[p])
            && forall q :: q in s.procs && q != p && s.procs[q].PutWrite? ==> !Holds(s'.procs[p], s.procs[q].ino)
  {
    var s' := Step(hash, s, p, e);
    if e.ReadEnd? {
      assert s.procs[p].got == s.disk.inodes[s.procs[p].ino].bytes;
    }
    if e.OpenHit? {
      var path := Object(s.procs[p].address.hex);
      forall q | q in s.procs && q != p && s.procs[q].PutWrite? ensures s.disk.dir[path] != s.procs[q].ino {
        assert ProcOk(hash, s.disk, s.contents, s.procs[q]);
        assert Private(s.disk, s.procs[q].temp, s.procs[q].ino);
      }
    }
  }

  lemma InvStep(hash: Hash, s: State, p: nat, e: Event)
    requires Inv(hash, s) && Enabled(hash, s, p, e)
    ensures Inv(hash, Step(hash, s, p, e))
  {
    match e
    case MakeTemp(time) => MakeTempKeepsInv(hash, s, p, time);
    case WriteSome(n, time) => WriteKeepsInv(hash, s, p, n, time);
    case RenameDone => RenameKeepsInv(hash, s, p);
    case RemoveTemp => UnlinkKeepsInv(hash, s, p, e);
    case Evict(_) => UnlinkKeepsInv(hash, s, p, e);
    case _ => QuietKeepsInv(hash, s, p, e);
  }

  // ----- Runs -----

  /** A run from a state where no process has started, over a sound store. */
  predicate Start(hash: Hash, s: State) {
    s.procs == map[] && DiskOk(hash, s.disk, s.contents)
  }

  datatype Move = Move(p: nat, e: Event)

  predicate Run(hash: Hash, states: seq<State>, moves: seq<Move>) {
    && |states| == |moves| + 1
    && Start(hash, states[0])
    && forall i :: 0 <= i < |moves| ==>
         && Enabled(hash, states[i], moves[i].p, moves[i].e)
         && states[i + 1] == Step(hash, states[i], moves[i].p, moves[i].e)
  }

  lemma {:induction false} RunInv(hash: Hash, states: seq<State>, moves: seq<Move>, i: nat)
    requires Run(hash, states, moves) && i < |states|
    ensures Inv(hash, states[i])
  {
    if i > 0 {
      RunInv(hash, states, moves, i - 1);
      InvStep(hash, states[i - 1], moves[i - 1].p, moves[i - 1].e);
    }
  }

  /** In every interleaving, every file at a final object path is complete: it holds a
      content that was handed to the store, and that content hashes to its name. */
  lemma ObjectsAreComplete(hash: Hash, states: seq<State>, moves: seq<Move>, i: nat, hex: string)
    requires Run(hash, states, moves) && i < |states| && Object(hex) in states[i].disk.dir
    ensures var d := states[i].disk;
            && d.dir[Object(hex)] in d.inodes
            && var bytes := d.inodes[d.dir[Object(hex)]].bytes;
               hash(bytes) == hex && bytes in states[i].contents
  {
    RunInv(hash, states, moves, i);
  }

  /** No other content of the run shares the digest of c. */
  predicate Unambiguous(hash: Hash, contents: set<Bytes>, c: Bytes) {
    forall x :: x in contents && hash(x) == hash(c) ==> x == c
  }

  /** In every interleaving, a Get for the digest and size of c ends with exactly c or with an
      error that is not corruption: never with partial or foreign bytes. */
  lemma GetIsExact(hash: Hash, states: seq<State>, moves: seq<Move>, i: nat, p: nat, c: Bytes)
    requires Run(hash, states, moves) && i < |states| && Unambiguous(hash, states[i].contents, c)
    requires p in states[i].procs && states[i].procs[p].GetDone?
    requires states[i].procs[p].address == Address("sha256", hash(c), |c|)
    ensures states[i].procs[p].result in {Content(c), NotFound, Failed}
  {
    RunInv(hash, states, moves, i);
    assert ProcOk(hash, states[i].disk, states[i].contents, states[i].procs[p]);
  }

  // ----- Objects that are not evicted -----

  predicate NoEviction(moves: seq<Move>) {
    forall i :: 0 <= i < |moves| ==> !moves[i].e.Evict?
  }

  /** No cleanup evicts the object of this digest; it may evict any other file. */
  predicate Spared(moves: seq<Move>, hex: string) {
    forall i :: 0 <= i < |moves| ==> moves[i].e != Evict(Object(hex))
  }

  predicate Stored(hash: Hash, s: State, c: Bytes) {
    Object(hash(c)) in s.disk.dir
  }

  /** Puts of contents with this digest that reported success, or are about to, have
      their object in place. */
  predicate Acknowledged(hash: Hash, s: State, hex: string) {
    forall p :: p in s.procs && (s.procs[p].PutDone? || s.procs[p].PutRemove?) && s.procs[p].ok
                && hash(s.procs[p].content) == hex ==>
      Stored(hash, s, s.procs[p].content)
  }

  lemma StoredStays(hash: Hash, s: State, p: nat, e: Event, hex: string)
    requires Enabled(hash, s, p, e) && e != Evict(Object(hex)) && Object(hex) in s.disk.dir
    ensures Object(hex) in Step(hash, s, p, e).disk.dir
  {
  }

  lemma AcknowledgedStep(hash: Hash, s: State, p: nat, e: Event, hex: string)
    requires Enabled(hash, s, p, e) && e != Evict(Object(hex)) && Acknowledged(hash, s, hex)
    ensures Acknowledged(hash, Step(hash, s, p, e), hex)
  {
    var s' := Step(hash, s, p, e);
    forall q | q in s'.procs && (s'.procs[q].PutDone? || s'.procs[q].PutRemove?) && s'.procs[q].ok
               && hash(s'.procs[q].content) == hex
      ensures Stored(hash, s', s'.procs[q].content)
    {
      if q != p || e.RemoveTemp? || e.RemoveTempFails? || e.StatHit? || e.RenameExists? {
        StoredStays(hash, s, p, e, hex);
      }
    }
  }

  lemma {:induction false} RunAcknowledged(hash: Hash, states: seq<State>, moves: seq<Move>, hex: string, i: nat)
    requires Run(hash, states, moves) && Spared(moves, hex) && i < |states|
    ensures Acknowledged(hash, states[i], hex)
  {
    if i > 0 {
      RunAcknowledged(hash, states, moves, hex, i - 1);
      AcknowledgedStep(hash, states[i - 1], moves[i - 1].p, moves[i - 1].e, hex);
    }
  }

  lemma {:induction false} StoredForever(hash: Hash, states: seq<State>, moves: seq<Move>, i: nat, j: nat, c: Bytes)
    requires Run(hash, states, moves) && Spared(moves, hash(c)) && i <= j < |states| && Stored(hash, states[i], c)
    ensures Stored(hash, states[j], c)
    decreases j
  {
    if i < j {
      StoredForever(hash, states, moves, i, j - 1, c);
      StoredStays(hash, states[j - 1], moves[j - 1].p, moves[j - 1].e, hash(c));
    }
  }

  /** End-to-end recovery, through the marker and under any interleaving that does not
      evict the object of c: once a Put of c has reported success, a Get for the address
      parsed from its rendered marker that starts later yields exactly c, unless reading
      fails. */
  lemma Recovery(hash: Hash, states: seq<State>, moves: seq<Move>, i: nat, j: nat, k: nat, p: nat, q: nat,
                 c: Bytes, marker: string, address: Address)
    requires Run(hash, states, moves) && Spared(moves, hash(c)) && i <= j <= k < |states|
    requires Unambiguous(hash, states[k].contents, c)
    requires p in states[i].procs && states[i].procs[p] == PutDone(c, true)
    requires RenderMarker(Address("sha256", hash(c), |c|)) == Ok(marker) && ParseMarker(marker) == Ok(address)
    requires q in states[j].procs && states[j].procs[q] == GetOpen(address)
    requires q in states[k].procs && states[k].procs[q].GetDone?
    ensures states[k].procs[q].result in {Content(c), Failed}
  {
    PutAddressTravels(hash, c);
    RunAcknowledged(hash, states, moves, hash(c), i);
    StoredForever(hash, states, moves, i, j, c);
    GetNeverMisses(hash, states, moves, j, k, q, c);
    GetIsExact(hash, states, moves, k, q, c);
  }

  /** The address a Put reports is the algorithm, the digest and the size of its content; it
      always renders, and its marker parses back to it. */
  lemma PutAddressTravels(hash: Hash, c: Bytes)
    ensures AddressForContent(hash, c) == Address("sha256", hash(c), |c|)
    ensures RenderMarker(Address("sha256", hash(c), |c|)).Ok?
    ensures ParseMarker(RenderMarker(Address("sha256", hash(c), |c|)).value) == Ok(Address("sha256", hash(c), |c|))
  {
    AddressIsValid(hash, c);
    RenderParse(AddressForContent(hash, c));
  }

  lemma {:induction false} GetNeverMisses(hash: Hash, states: seq<State>, moves: seq<Move>, j: nat, k: nat,
                                          q: nat, c: Bytes)
    requires Run(hash, states, moves) && Spared(moves, hash(c)) && j <= k < |states| && Stored(hash, states[j], c)
    requires q in states[j].procs && states[j].procs[q] == GetOpen(AddressForContent(hash, c))
    ensures q in states[k].procs && OnTrack(states[k].procs[q], AddressForContent(hash, c))
    decreases k
  {
    if j < k {
      GetNeverMisses(hash, states, moves, j, k - 1, q, c);
      StoredForever(hash, states, moves, j, k - 1, c);
      GetStaysOnTrack(hash, states[k - 1], moves[k - 1].p, moves[k - 1].e, q, c);
    }
  }

  predicate OnTrack(proc: Proc, address: Address) {
    || proc.Crashed?
    || ((proc.GetOpen? || proc.GetRead? || proc.GetDone?) && proc.address == address
        && (proc.GetDone? ==> proc.result != NotFound))
  }

  lemma GetStaysOnTrack(hash: Hash, s: State, p: nat, e: Event, q: nat, c: Bytes)
    requires Enabled(hash, s, p, e) && Stored(hash, s, c)
    requires q in s.procs && OnTrack(s.procs[q], AddressForContent(hash, c))
    ensures q in Step(hash, s, p, e).procs && OnTrack(Step(hash, s, p, e).procs[q], AddressForContent(hash, c))
  {
  }

  // ----- Temporary files -----

  /** The process has yet to remove this temporary file. */
  predicate HoldsTemp(proc: Proc, n: nat) {
    (proc.PutWrite? || proc.PutRename? || proc.PutRemove?) && proc.temp == n
  }

  predicate Held(s: State, n: nat) {
    exists p :: p in s.procs && HoldsTemp(s.procs[p], n)
  }

  /** The move takes this temporary file from its Put without removing it. */
  predicate Abandons(s: State, move: Move, n: nat) {
    && (move.e.Crash? || move.e.RemoveTempFails?)
    && move.p in s.procs && HoldsTemp(s.procs[move.p], n)
  }

  lemma TempStep(hash: Hash, s: State, p: nat, e: Event, n: nat)
    requires Enabled(hash, s, p, e) && Temp(n) in Step(hash, s, p, e).disk.dir
    requires Temp(n) in s.disk.dir ==> n < s.disk.nextTemp
    ensures Temp(n) in s.disk.dir || (n == s.disk.nextTemp && Held(Step(hash, s, p, e), n))
    ensures Held(s, n) ==> Held(Step(hash, s, p, e), n) || Abandons(s, Move(p, e), n)
  {
    var s' := Step(hash, s, p, e);
    assert HoldsTemp(s'.procs[p], n) ==> Held(s', n);
    if Held(s, n) {
      var q :| q in s.procs && HoldsTemp(s.procs[q], n);
      if q != p { assert HoldsTemp(s'.procs[q], n); }
    }
  }

  /** In every interleaving, a temporary file made during the run is held by a Put that
      has yet to remove it, unless that Put crashed or failed to remove it. */
  lemma {:induction false} TempsAreHeld(hash: Hash, states: seq<State>, moves: seq<Move>, i: nat, n: nat)
    requires Run(hash, states, moves) && i < |states|
    requires Temp(n) in states[i].disk.dir && n >= states[0].disk.nextTemp
    ensures Held(states[i], n) || exists k :: 0 <= k < i && Abandons(states[k], moves[k], n)
  {
    RunInv(hash, states, moves, i);
    if i > 0 {
      RunInv(hash, states, moves, i - 1);
      TempStep(hash, states[i - 1], moves[i - 1].p, moves[i - 1].e, n);
      if Temp(n) in states[i - 1].disk.dir {
        TempsAreHeld(hash, states, moves, i - 1, n);
        assert moves[i - 1] == Move(moves[i - 1].p, moves[i - 1].e);
      }
    }
  }

  // ----- What a finished call reports -----

  /** The step that lets a Put report success: the object was there, was put in place, or
      appeared in the meantime. */
  predicate Succeeds(e: Event) {
    e.StatHit? || e.RenameDone? || e.RenameExists?
  }

  predicate Succeeded(moves: seq<Move>, i: nat, p: nat) {
    exists k :: 0 <= k < i && k < |moves| && moves[k].p == p && Succeeds(moves[k].e)
  }

  /** A Put that is past the step that decides knows how it went. */
  predicate KnowsOutcome(proc: Proc, succeeded: bool) {
    match proc
    case PutRemove(_, _, ok) => ok == succeeded
    case PutDone(_, ok) => ok == succeeded
    case PutStat(_) => !succeeded
    case PutCreate(_) => !succeeded
    case PutWrite(_, _, _) => !succeeded
    case PutRename(_, _, _) => !succeeded
    case _ => true
  }

  lemma SucceededStep(moves: seq<Move>, i: nat, p: nat)
    requires i < |moves|
    ensures Succeeded(moves, i + 1, p) <==> Succeeded(moves, i, p) || (moves[i].p == p && Succeeds(moves[i].e))
  {
  }

  /** In every interleaving, a Put reports success if and only if it took such a step. */
  lemma {:induction false} PutReports(hash: Hash, states: seq<State>, moves: seq<Move>, i: nat, p: nat)
    requires Run(hash, states, moves) && i < |states|
    ensures p !in states[i].procs ==> !Succeeded(moves, i, p)
    ensures p in states[i].procs ==> KnowsOutcome(states[i].procs[p], Succeeded(moves, i, p))
  {
    if i > 0 {
      PutReports(hash, states, moves, i - 1, p);
      SucceededStep(moves, i - 1, p);
      OutcomeStep(hash, states[i - 1], moves[i - 1].p, moves[i - 1].e, p, Succeeded(moves, i - 1, p));
    }
  }

  lemma OutcomeStep(hash: Hash, s: State, p: nat, e: Event, q: nat, before: bool)
    requires Enabled(hash, s, p, e)
    requires q !in s.procs ==> !before
    requires q in s.procs ==> KnowsOutcome(s.procs[q], before)
    ensures var s', after := Step(hash, s, p, e), before || (p == q && Succeeds(e));
            && (q !in s'.procs ==> !after)
            && (q in s'.procs ==> KnowsOutcome(s'.procs[q], after))
  {
  }

  /** A call that goes on without faults. */
  predicate Smooth(e: Event) {
    && !e.SetupFails? && !e.WriteFails? && !e.RenameFails? && !e.RemoveTempFails?
    && !e.ReadFails? && !e.EvictFails? && !e.Crash?
  }

  /** Puts and Gets never get stuck: until it is done, a call has a step without faults, but
      for a Put whose temporary file has been evicted. */
  lemma NeverStuck(hash: Hash, s: State, p: nat) returns (e: Event)
    requires Inv(hash, s) && p in s.procs
    requires !s.procs[p].PutDone? && !s.procs[p].GetDone? && !s.procs[p].Crashed? && !s.procs[p].CleanRemove?
    requires s.procs[p].PutRename? ==> Temp(s.procs[p].temp) in s.disk.dir
    ensures Enabled(hash, s, p, e) && Smooth(e)
  {
    var proc := s.procs[p];
    assert ProcOk(hash, s.disk, s.contents, proc);
    match proc
    case PutStat(c) => e := if Object(hash(c)) in s.disk.dir then StatHit else StatMiss;
    case PutCreate(_) => e := MakeTemp(0);
    case PutWrite(c, _, ino) =>
      e := if s.disk.inodes[ino].bytes == c then Close else WriteSome(|c|, 0);
    case PutRename(_, _, _) => e := RenameDone;
    case PutRemove(_, _, _) => e := RemoveTemp;
    case GetOpen(a) => e := if Object(a.hex) in s.disk.dir then OpenHit else OpenMiss;
    case GetRead(_, ino, got) =>
      e := if |got| == |s.disk.inodes[ino].bytes| then ReadEnd else ReadSome(|s.disk.inodes[ino].bytes|);
    case CleanWalk(_) => e := Choose({});
  }
}
