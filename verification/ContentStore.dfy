/**
 The store object (internal/ccr/store.go, internal/ccr/retention.go) used by one
 caller at a time: Put, Get, Diagnostics and Cleanup over a disk it owns. I/O faults
 are parameters. Every Put is shown to be one of the protocol's runs, so what is
 proved for all interleavings covers it.
 */
module ContentStore {
  import opened Outcome
  import opened Marker
  import opened Store
  import opened Retention

  // ----- The stored objects -----

  predicate Sound(d: Disk) {
    forall path :: path in d.dir ==> d.dir[path] in d.inodes
  }

  function Names(d: Disk): set<string> {
    set path | path in d.dir && path.Object? :: path.hex
  }

  /** The object set: what is filed under which digest. */
  function Objects(d: Disk): map<string, Bytes>
    requires Sound(d)
  {
    map hex | hex in Names(d) :: d.inodes[d.dir[Object(hex)]].bytes
  }

  lemma NameOf(d: Disk, hex: string)
    ensures hex in Names(d) <==> Object(hex) in d.dir
  {
  }

  function Temps(d: Disk): set<Path> {
    set path | path in d.dir && path.Temp?
  }

  function PutObjects(hash: Hash, objects: map<string, Bytes>, content: Bytes): map<string, Bytes> {
    if hash(content) in objects then objects else objects[hash(content) := content]
  }

  // ----- Following the protocol -----

  /** One more step of process 0 at the end of a run. */
  lemma Take(hash: Hash, states: seq<State>, moves: seq<Move>, e: Event)
    returns (states': seq<State>, moves': seq<Move>)
    requires Run(hash, states, moves) && NoEviction(moves)
    requires Enabled(hash, Last(states), 0, e) && !e.Evict?
    ensures Run(hash, states', moves') && NoEviction(moves')
    ensures states'[0] == states[0] && Last(states') == Step(hash, Last(states), 0, e)
  {
    var next := Step(hash, states[|moves|], 0, e);
    states', moves' := states + [next], moves + [Move(0, e)];
    forall i | 0 <= i < |moves'|
      ensures Enabled(hash, states'[i], moves'[i].p, moves'[i].e)
           && states'[i + 1] == Step(hash, states'[i], moves'[i].p, moves'[i].e)
    {
      if i < |moves| {
        assert states'[i] == states[i] && states'[i + 1] == states[i + 1] && moves'[i] == moves[i];
      }
    }
  }

  /** What goes wrong during one Put: how many bytes a failing write still writes, and
      which of the other calls succeed. */
  datatype PutIO = PutIO(
    statOk: bool,
    setupOk: bool,
    writeOk: bool,
    written: nat,
    renameOk: bool,
    removeOk: bool,
    time: int)

  /** How many bytes reach the temporary file. */
  function Written(content: Bytes, io: PutIO): (n: nat)
    ensures n <= |content|
  {
    if io.writeOk || io.written > |content| then |content| else io.written
  }

  /** The disk with the temporary file written. */
  function Filled(d: Disk, content: Bytes, io: PutIO): Disk {
    WriteTo(CreateTemp(d, io.time), d.nextIno, content[..Written(content, io)], io.time)
  }

  /** The disk after the rename, if it comes to that. */
  function Placed(hash: Hash, d: Disk, content: Bytes, io: PutIO): Disk {
    var filled := Filled(d, content, io);
    if io.writeOk && io.renameOk then Rename(filled, d.nextTemp, hash(content)) else filled
  }

  /** The disk when Put returns. */
  function Left(hash: Hash, d: Disk, content: Bytes, io: PutIO): Disk {
    if io.removeOk then Unlink(Placed(hash, d, content, io), Temp(d.nextTemp)) else Placed(hash, d, content, io)
  }

  /** What the work on the temporary file does to the directory and the inodes. */
  lemma LeftDir(hash: Hash, d: Disk, content: Bytes, io: PutIO)
    requires Temp(d.nextTemp) !in d.dir
    ensures var ok, d' := io.writeOk && io.renameOk, Left(hash, d, content, io);
            && d'.inodes == d.inodes[d.nextIno := Inode(content[..Written(content, io)], io.time)]
            && (ok ==> d'.dir == d.dir[Object(hash(content)) := d.nextIno])
            && (!ok && io.removeOk ==> d'.dir == d.dir)
            && (!ok && !io.removeOk ==> d'.dir == d.dir[Temp(d.nextTemp) := d.nextIno])
  {
  }

  /** A fresh inode with its link, if it gets one. */
  predicate Added(d: Disk, d': Disk, ino: nat, node: Inode, path: Path, linked: bool) {
    && Sound(d) && ino !in d.inodes && path !in d.dir
    && d'.inodes == d.inodes[ino := node] && d'.dir == if linked then d.dir[path := ino] else d.dir
  }

  lemma AddedNames(d: Disk, d': Disk, ino: nat, node: Inode, path: Path, linked: bool)
    requires Added(d, d', ino, node, path, linked)
    ensures Sound(d')
    ensures forall hex :: hex in Names(d') <==> hex in Names(d) || (linked && path == Object(hex))
    ensures Temps(d') == Temps(d) + if linked && path.Temp? then {path} else {}
  {
    forall hex ensures hex in Names(d') <==> hex in Names(d) || (linked && path == Object(hex)) {
      NameOf(d, hex);
      NameOf(d', hex);
    }
  }

  lemma AddedBytes(d: Disk, d': Disk, ino: nat, node: Inode, path: Path, linked: bool, hex: string)
    requires Added(d, d', ino, node, path, linked) && Sound(d') && hex in Names(d)
    ensures hex in Names(d') && Objects(d')[hex] == Objects(d)[hex]
  {
    NameOf(d, hex);
    NameOf(d', hex);
  }

  lemma MapGain<K, V>(m: map<K, V>, m': map<K, V>, k: K, v: V)
    requires k in m' && m'[k] == v && forall x :: x in m' <==> x in m || x == k
    requires forall x :: x in m && x != k ==> m'[x] == m[x]
    ensures m' == m[k := v]
  {
  }

  lemma MapSame<K, V>(m: map<K, V>, m': map<K, V>)
    requires forall x :: x in m' <==> x in m
    requires forall x :: x in m ==> m'[x] == m[x]
    ensures m' == m
  {
  }

  /** It leaves the other objects alone. */
  lemma AddedObjects(d: Disk, d': Disk, ino: nat, node: Inode, path: Path, linked: bool)
    requires Added(d, d', ino, node, path, linked) && Sound(d')
    ensures Objects(d') == if linked && path.Object? then Objects(d)[path.hex := node.bytes] else Objects(d)
  {
    AddedNames(d, d', ino, node, path, linked);
    var m, m' := Objects(d), Objects(d');
    forall hex | hex in m ensures hex in m' && m'[hex] == m[hex] {
      AddedBytes(d, d', ino, node, path, linked, hex);
    }
    if linked && path.Object? {
      NameOf(d', path.hex);
      MapGain(m, m', path.hex, node.bytes);
    } else {
      MapSame(m, m');
    }
  }

  /** What it does to the object set. */
  lemma LeftObjects(hash: Hash, d: Disk, contents: set<Bytes>, content: Bytes, io: PutIO)
    requires DiskOk(hash, d, contents) && Object(hash(content)) !in d.dir
    ensures var ok, d' := io.writeOk && io.renameOk, Left(hash, d, content, io);
            && Sound(d')
            && Objects(d') == (if ok then PutObjects(hash, Objects(d), content) else Objects(d))
            && (io.removeOk || ok ==> Temps(d') == Temps(d))
  {
    var ok, d' := io.writeOk && io.renameOk, Left(hash, d, content, io);
    LeftDir(hash, d, content, io);
    assert content[..|content|] == content;
    NameOf(d, hash(content));
    var node := Inode(content[..Written(content, io)], io.time);
    var path := if ok then Object(hash(content)) else Temp(d.nextTemp);
    AddedNames(d, d', d.nextIno, node, path, ok || !io.removeOk);
    AddedObjects(d, d', d.nextIno, node, path, ok || !io.removeOk);
  }

  /** The last state of a run. */
  function Last(states: seq<State>): State
    requires states != []
  {
    states[|states| - 1]
  }

  /** Creating and filling the temporary file, as steps of the protocol. */
  lemma FillSteps(hash: Hash, d: Disk, contents: set<Bytes>, content: Bytes, io: PutIO,
                  states0: seq<State>, moves0: seq<Move>)
    returns (states: seq<State>, moves: seq<Move>)
    requires Run(hash, states0, moves0) && NoEviction(moves0)
    requires Last(states0) == State(d, map[0 := PutCreate(content)], contents)
    ensures Run(hash, states, moves) && NoEviction(moves) && states[0] == states0[0]
    ensures Last(states) == State(Filled(d, content, io), map[0 := PutWrite(content, d.nextTemp, d.nextIno)], contents)
  {
    states, moves := Take(hash, states0, moves0, MakeTemp(io.time));
    var proc := PutWrite(content, d.nextTemp, d.nextIno);
    assert map[0 := PutCreate(content)][0 := proc] == map[0 := proc];
    states, moves := Take(hash, states, moves, WriteSome(Written(content, io), io.time));
    assert map[0 := proc][0 := proc] == map[0 := proc];
  }

  /** Renaming it, or giving up, as steps of the protocol. */
  lemma PlaceSteps(hash: Hash, d: Disk, contents: set<Bytes>, content: Bytes, io: PutIO,
                   states0: seq<State>, moves0: seq<Move>)
    returns (states: seq<State>, moves: seq<Move>)
    requires Run(hash, states0, moves0) && NoEviction(moves0)
    requires Last(states0) == State(Filled(d, content, io),
                                    map[0 := PutWrite(content, d.nextTemp, d.nextIno)], contents)
    ensures Run(hash, states, moves) && NoEviction(moves) && states[0] == states0[0]
    ensures Last(states) == State(Placed(hash, d, content, io),
                                  map[0 := PutRemove(content, d.nextTemp, io.writeOk && io.renameOk)], contents)
  {
    var writing := PutWrite(content, d.nextTemp, d.nextIno);
    var removing := PutRemove(content, d.nextTemp, io.writeOk && io.renameOk);
    assert map[0 := writing][0 := removing] == map[0 := removing];
    if !io.writeOk {
      states, moves := Take(hash, states0, moves0, WriteFails);
    } else {
      assert content[..|content|] == content;
      states, moves := Take(hash, states0, moves0, Close);
      var renaming := PutRename(content, d.nextTemp, d.nextIno);
      assert map[0 := writing][0 := renaming] == map[0 := renaming];
      states, moves := Take(hash, states, moves, if io.renameOk then RenameDone else RenameFails);
      assert map[0 := renaming][0 := removing] == map[0 := removing];
    }
  }

  lemma LeaveSteps(hash: Hash, d: Disk, contents: set<Bytes>, content: Bytes, io: PutIO,
                   states0: seq<State>, moves0: seq<Move>)
    returns (states: seq<State>, moves: seq<Move>)
    requires Run(hash, states0, moves0) && NoEviction(moves0)
    requires Last(states0) == State(d, map[0 := PutCreate(content)], contents)
    ensures Run(hash, states, moves) && NoEviction(moves) && states[0] == states0[0]
    ensures Last(states) == State(Left(hash, d, content, io),
                                  map[0 := PutDone(content, io.writeOk && io.renameOk)], contents)
  {
    states, moves := FillSteps(hash, d, contents, content, io, states0, moves0);
    states, moves := PlaceSteps(hash, d, contents, content, io, states, moves);
    states, moves := Take(hash, states, moves, if io.removeOk then RemoveTemp else RemoveTempFails);
    var ok := io.writeOk && io.renameOk;
    assert map[0 := PutRemove(content, d.nextTemp, ok)][0 := PutDone(content, ok)] == map[0 := PutDone(content, ok)];
  }

  /** The disk Put leaves, and whether it reports success. */
  function PutOutcome(hash: Hash, d: Disk, content: Bytes, io: PutIO): (Disk, bool) {
    if !io.statOk then (d, false)
    else if Object(hash(content)) in d.dir then (d, true)
    else if !io.setupOk then (d, false)
    else (Left(hash, d, content, io), io.writeOk && io.renameOk)
  }

  /** A Put on its own is one of the protocol's runs. */
  lemma PutIsARun(hash: Hash, d: Disk, contents: set<Bytes>, content: Bytes, io: PutIO)
    returns (states: seq<State>, moves: seq<Move>)
    requires DiskOk(hash, d, contents)
    ensures Run(hash, states, moves) && NoEviction(moves) && states[0].disk == d
    ensures var (disk, ok) := PutOutcome(hash, d, content, io);
            Last(states) == State(disk, map[0 := PutDone(content, ok)], contents + {content})
  {
    states, moves := [State(d, map[], contents)], [];
    states, moves := Take(hash, states, moves, StartPut(content));
    assert Last(states) == State(d, map[0 := PutStat(content)], contents + {content});
    assert forall proc :: map[0 := PutStat(content)][0 := proc] == map[0 := proc];
    if !io.statOk {
      states, moves := Take(hash, states, moves, SetupFails);
    } else if Object(hash(content)) in d.dir {
      states, moves := Take(hash, states, moves, StatHit);
    } else if !io.setupOk {
      states, moves := Take(hash, states, moves, SetupFails);
    } else {
      states, moves := Take(hash, states, moves, StatMiss);
      states, moves := LeaveSteps(hash, d, contents + {content}, content, io, states, moves);
    }
  }

  lemma PutKeepsDisk(hash: Hash, d: Disk, contents: set<Bytes>, content: Bytes, io: PutIO)
    requires DiskOk(hash, d, contents)
    ensures DiskOk(hash, PutOutcome(hash, d, content, io).0, contents + {content})
  {
    var states, moves := PutIsARun(hash, d, contents, content, io);
    RunInv(hash, states, moves, |moves|);
  }

  lemma PutEffect(hash: Hash, d: Disk, contents: set<Bytes>, content: Bytes, io: PutIO)
    requires DiskOk(hash, d, contents)
    ensures var (d', ok) := PutOutcome(hash, d, content, io);
            && DiskOk(hash, d', contents + {content}) && Sound(d')
            && Objects(d') == (if ok then PutObjects(hash, Objects(d), content) else Objects(d))
            && (io.removeOk || ok ==> Temps(d') == Temps(d))
  {
    PutKeepsDisk(hash, d, contents, content, io);
    NameOf(d, hash(content));
    if Object(hash(content)) !in d.dir && io.setupOk { LeftObjects(hash, d, contents, content, io); }
  }

  // ----- Several Puts -----

  /** No call of this Put fails. */
  predicate Works(io: PutIO) {
    io.statOk && io.setupOk && io.writeOk && io.renameOk
  }

  lemma ObjectsAfter(hash: Hash, d: Disk, contents: set<Bytes>, content: Bytes, io: PutIO)
    requires DiskOk(hash, d, contents)
    ensures var (d', ok) := PutOutcome(hash, d, content, io);
            && Sound(d') && DiskOk(hash, d', contents + {content})
            && Objects(d') == (if Works(io) then PutObjects(hash, Objects(d), content) else Objects(d))
            && (ok ==> Object(hash(content)) in d'.dir)
  {
    PutEffect(hash, d, contents, content, io);
    NameOf(d, hash(content));
    if Object(hash(content)) !in d.dir { LeftDir(hash, d, content, io); }
  }

  /** Putting a content again, after a success, touches nothing on the disk and succeeds
      unless the object cannot be inspected; and a failed Put leaves the objects as if it had not been tried. */
  lemma PutIdempotent(hash: Hash, d: Disk, contents: set<Bytes>, content: Bytes, io: PutIO, again: PutIO)
    requires DiskOk(hash, d, contents)
    ensures var (d1, ok) := PutOutcome(hash, d, content, io);
            var (d2, ok2) := PutOutcome(hash, d1, content, again);
            && Sound(d1) && Sound(d2)
            && (ok ==> d2 == d1 && ok2 == again.statOk)
            && (!ok ==> Objects(d2) == Objects(PutOutcome(hash, d, content, again).0))
  {
    ObjectsAfter(hash, d, contents, content, io);
    ObjectsAfter(hash, d, contents, content, again);
    ObjectsAfter(hash, PutOutcome(hash, d, content, io).0, contents + {content}, content, again);
    PutEffect(hash, d, contents, content, io);
  }

  lemma ObjectsCommuteIff(hash: Hash, objects: map<string, Bytes>, a: Bytes, b: Bytes)
    ensures PutObjects(hash, PutObjects(hash, objects, a), b) == PutObjects(hash, PutObjects(hash, objects, b), a)
       <==> !(hash(a) == hash(b) && a != b && hash(a) !in objects)
  {
    var ab := PutObjects(hash, PutObjects(hash, objects, a), b);
    var ba := PutObjects(hash, PutObjects(hash, objects, b), a);
    if hash(a) == hash(b) && hash(a) !in objects {
      assert ab[hash(a)] == a && ba[hash(a)] == b;
    } else {
      assert ab == ba;
    }
  }

  /** The disk after two Puts. */
  function TwoPuts(hash: Hash, d: Disk, a: Bytes, ioA: PutIO, b: Bytes, ioB: PutIO): Disk {
    PutOutcome(hash, PutOutcome(hash, d, a, ioA).0, b, ioB).0
  }

  lemma ObjectsAfterTwo(hash: Hash, d: Disk, contents: set<Bytes>, a: Bytes, ioA: PutIO, b: Bytes, ioB: PutIO)
    requires DiskOk(hash, d, contents)
    ensures Sound(TwoPuts(hash, d, a, ioA, b, ioB))
    ensures var first := if Works(ioA) then PutObjects(hash, Objects(d), a) else Objects(d);
            Objects(TwoPuts(hash, d, a, ioA, b, ioB)) == if Works(ioB) then PutObjects(hash, first, b) else first
  {
    ObjectsAfter(hash, d, contents, a, ioA);
    ObjectsAfter(hash, PutOutcome(hash, d, a, ioA).0, contents + {a}, b, ioB);
  }

  /** The order of two Puts shows in the objects exactly when both work and two different
      contents collide on a digest that is not stored yet. */
  lemma PutsCommuteIff(hash: Hash, d: Disk, contents: set<Bytes>, a: Bytes, ioA: PutIO, b: Bytes, ioB: PutIO)
    requires DiskOk(hash, d, contents)
    ensures var ab, ba := TwoPuts(hash, d, a, ioA, b, ioB), TwoPuts(hash, d, b, ioB, a, ioA);
            && Sound(ab) && Sound(ba)
            && (Objects(ab) == Objects(ba) <==>
                !(Works(ioA) && Works(ioB) && hash(a) == hash(b) && a != b && hash(a) !in Objects(d)))
  {
    ObjectsAfterTwo(hash, d, contents, a, ioA, b, ioB);
    ObjectsAfterTwo(hash, d, contents, b, ioB, a, ioA);
    ObjectsCommuteIff(hash, Objects(d), a, b);
  }

  // ----- Files on the disk -----

  datatype Diagnostics = Diagnostics(objects: nat, bytes: nat)

  datatype CleanupResult = CleanupResult(
    dryRun: bool,
    wouldRemove: nat,
    removed: nat,
    failed: nat,
    kept: nat,
    bytesWouldRemove: nat,
    bytesRemoved: nat,
    bytesKept: nat)

  function Info(d: Disk, path: Path): ObjectInfo
    requires path in d.dir && d.dir[path] in d.inodes
  {
    ObjectInfo(path, |d.inodes[d.dir[path]].bytes|, d.inodes[d.dir[path]].modTime)
  }

  /** A walk visits every file below the objects directory once, temporary ones too. */
  predicate Walk(d: Disk, walk: seq<Path>) {
    && (forall path :: path in walk ==> path in d.dir)
    && (forall path :: path in d.dir ==> path in walk)
    && (forall i, j :: 0 <= i < j < |walk| ==> walk[i] != walk[j])
  }

  function Infos(d: Disk, walk: seq<Path>): (infos: seq<ObjectInfo>)
    requires Sound(d) && Walk(d, walk)
    ensures |infos| == |walk|
    ensures forall i :: 0 <= i < |walk| ==> infos[i] == Info(d, walk[i])
    ensures forall i :: 0 <= i < |walk| ==>
      && infos[i].path == walk[i]
      && infos[i].size == |d.inodes[d.dir[walk[i]]].bytes|
      && infos[i].modTime == d.inodes[d.dir[walk[i]]].modTime
  {
    seq(|walk|, i requires 0 <= i < |walk| => Info(d, walk[i]))
  }

  /** The bytes of the files at these paths. */
  function StoredBytes(d: Disk, paths: seq<Path>): nat {
    if paths == [] then 0
    else
      (if paths[0] in d.dir && d.dir[paths[0]] in d.inodes then |d.inodes[d.dir[paths[0]]].bytes| else 0)
      + StoredBytes(d, paths[1..])
  }

  lemma InfosBytes(d: Disk, walk: seq<Path>)
    requires Sound(d) && Walk(d, walk)
    ensures Total(Infos(d, walk)) == StoredBytes(d, walk)
  {
    SizesAreBytes(d, walk, Infos(d, walk));
  }

  lemma {:induction false} SizesAreBytes(d: Disk, paths: seq<Path>, infos: seq<ObjectInfo>)
    requires Sound(d) && |infos| == |paths|
    requires forall i :: 0 <= i < |paths| ==>
      paths[i] in d.dir && infos[i].size == |d.inodes[d.dir[paths[i]]].bytes|
    ensures Total(infos) == StoredBytes(d, paths)
    decreases |paths|
  {
    if paths != [] {
      assert forall i :: 0 <= i < |paths| - 1 ==> paths[1..][i] == paths[i + 1] && infos[1..][i] == infos[i + 1];
      SizesAreBytes(d, paths[1..], infos[1..]);
    }
  }

  lemma InfosDistinct(d: Disk, walk: seq<Path>)
    requires Sound(d) && Walk(d, walk)
    ensures DistinctPaths(Infos(d, walk)) && Paths(Infos(d, walk)) == d.dir.Keys
  {
    var infos := Infos(d, walk);
    forall path | path in d.dir ensures path in Paths(infos) {
      var i :| 0 <= i < |walk| && walk[i] == path;
      assert infos[i] in infos;
    }
  }

  lemma InfosMembers(d: Disk, walk: seq<Path>, o: ObjectInfo)
    requires Sound(d) && Walk(d, walk)
    ensures o in Infos(d, walk) <==> o.path in d.dir && o == Info(d, o.path)
  {
    if o.path in d.dir && o == Info(d, o.path) {
      var i :| 0 <= i < |walk| && walk[i] == o.path;
      assert Infos(d, walk)[i] == o;
    }
  }

  /** Any walk after removing some files finds what remains of any walk before. */
  lemma WalkAfter(d: Disk, walk: seq<Path>, gone: set<Path>, d': Disk, walk': seq<Path>)
    requires Sound(d) && Walk(d, walk) && Sound(d') && Walk(d', walk')
    requires d'.inodes == d.inodes && d'.dir == d.dir - gone
    ensures multiset(Infos(d', walk')) == multiset(Remaining(Infos(d, walk), gone))
  {
    var before, after := Infos(d, walk), Infos(d', walk');
    InfosDistinct(d, walk);
    InfosDistinct(d', walk');
    forall o ensures multiset(after)[o] == multiset(Remaining(before, gone))[o] {
      RemainingCount(before, gone, o);
      OnceInDistinct(before, o);
      OnceInDistinct(after, o);
      InfosMembers(d, walk, o);
      InfosMembers(d', walk', o);
      assert o in after <==> o in multiset(after);
      assert o in before <==> o in multiset(before);
    }
  }

  /** A cleanup now, whatever the order of its walk and its sort, finds nothing to remove. */
  ghost predicate Settled(d: Disk, policy: RetentionPolicy, now: int)
    requires Sound(d)
  {
    forall walk, again :: Walk(d, walk) && RemovesOldest(Infos(d, walk), policy, now, again) ==> again == {}
  }

  lemma RemovalSettles(d: Disk, walk: seq<Path>, policy: RetentionPolicy, now: int, candidates: set<Path>, d': Disk)
    requires Sound(d) && Walk(d, walk) && RemovesOldest(Infos(d, walk), policy, now, candidates)
    requires Sound(d') && d'.inodes == d.inodes && d'.dir == d.dir - candidates
    ensures Settled(d', policy, now)
    ensures policy.maxBytes > 0 ==> Total(Remaining(Infos(d, walk), candidates)) <= policy.maxBytes
  {
    var infos := Infos(d, walk);
    InfosDistinct(d, walk);
    CleanupIsComplete(infos, policy, now, candidates, Remaining(infos, candidates));
    forall walk', again | Walk(d', walk') && RemovesOldest(Infos(d', walk'), policy, now, again)
      ensures again == {}
    {
      WalkAfter(d, walk, candidates, d', walk');
      CleanupIsComplete(infos, policy, now, candidates, Infos(d', walk'));
    }
  }

  class ObjectStore {
    const hash: Hash
    var disk: Disk
    ghost var contents: set<Bytes>

    ghost predicate Valid()
      reads this
    {
      DiskOk(hash, disk, contents)
    }

    constructor (h: Hash)
      ensures Valid() && hash == h && disk.dir == map[]
    {
      hash := h;
      disk := Disk(map[], map[], 0, 0);
      contents := {};
    }

    /** Put: stat, temporary file, write, close, rename and the deferred removal, with
        the faults given. On success the object set gains the content; on failure it is
        what it was. No temporary file is left behind unless its removal fails. */
    method Put(content: Bytes, io: PutIO) returns (result: Result<Address, string>)
      requires Valid()
      modifies this`disk, this`contents
      ensures Valid() && contents == old(contents) + {content}
      ensures (disk, result.Ok?) == PutOutcome(hash, old(disk), content, io)
      ensures result.Ok? ==> result.value == Address("sha256", hash(content), |content|)
      ensures Objects(disk) == if result.Ok? then PutObjects(hash, old(Objects(disk)), content) else old(Objects(disk))
      ensures io.removeOk || result.Ok? ==> Temps(disk) == old(Temps(disk))
    {
      PutEffect(hash, disk, contents, content, io);
      contents := contents + {content};
      var address := AddressForContent(hash, content);
      if !io.statOk {
        return Err("stat");
      }
      if Object(hash(content)) in disk.dir {
        return Ok(address);
      }
      if !io.setupOk {
        return Err("setup");
      }
      var ok := WriteAndRename(content, io);
      result := if ok then Ok(address) else Err("write");
    }

    /** The part of Put that works on a temporary file. */
    method WriteAndRename(content: Bytes, io: PutIO) returns (ok: bool)
      modifies this`disk
      ensures disk == Left(hash, old(disk), content, io) && ok == (io.writeOk && io.renameOk)
    {
      var temp, ino := disk.nextTemp, disk.nextIno;
      disk := CreateTemp(disk, io.time);
      disk := WriteTo(disk, ino, content[..Written(content, io)], io.time);
      ok := false;
      if io.writeOk {
        if io.renameOk {
          disk := Rename(disk, temp, hash(content));
          ok := true;
        }
      }
      if io.removeOk {
        disk := Unlink(disk, Temp(temp));
      }
    }

    /** Get: exactly the content filed under the address, or the reason there is none. */
    method Get(address: Address, readOk: bool) returns (result: Result<Bytes, string>)
      requires Valid()
      ensures !ValidAddress(address) ==> result == Err("invalid CCR address")
      ensures ValidAddress(address) && Object(address.hex) !in disk.dir ==> result == Err("CCR content not found")
      ensures result.Ok? <==>
        && ValidAddress(address) && Object(address.hex) in disk.dir && readOk
        && hash(Objects(disk)[address.hex]) == address.hex && |Objects(disk)[address.hex]| == address.bytes
      ensures result.Ok? ==> result.value == Objects(disk)[address.hex] && result.value in contents
    {
      if !ValidAddress(address) {
        return Err("invalid CCR address");
      }
      if Object(address.hex) !in disk.dir {
        return Err("CCR content not found");
      }
      if !readOk {
        return Err("read");
      }
      var content := disk.inodes[disk.dir[Object(address.hex)]].bytes;
      if AddressForContent(hash, content) != address {
        return Err("CCR content hash mismatch");
      }
      return Ok(content);
    }

    method Diagnose(walk: seq<Path>) returns (report: Diagnostics)
      requires Valid() && Walk(disk, walk)
      ensures report == Diagnostics(|disk.dir|, StoredBytes(disk, walk))
      ensures report.bytes == Total(Infos(disk, walk))
    {
      var bytes := SumSizes(Infos(disk, walk));
      InfosDistinct(disk, walk);
      ReportCounts(Infos(disk, walk), {}, false, {});
      InfosBytes(disk, walk);
      report := Diagnostics(|walk|, bytes);
    }

    /** Cleanup: removes the candidates whose removal does not fail, and reports on every
        file exactly once. Without failures what is left is within the byte limit, and
        there is nothing left to remove. */
    method Cleanup(walk: seq<Path>, policy: RetentionPolicy, now: int, confirm: bool, failing: set<Path>)
      returns (result: CleanupResult, ghost candidates: set<Path>)
      requires Valid() && Walk(disk, walk)
      modifies this`disk
      ensures Valid() && disk.inodes == old(disk.inodes)
      ensures RemovesOldest(Infos(old(disk), walk), policy, now, candidates)
      ensures forall o :: o in Infos(old(disk), walk) ==>
        FollowsPolicy(Infos(old(disk), walk), policy, now, candidates, o)
      ensures disk.dir == if confirm then old(disk.dir) - (candidates - failing) else old(disk.dir)
      ensures result == Report(Infos(old(disk), walk), candidates, confirm, failing)
      ensures result.wouldRemove == |candidates|
      ensures confirm ==> result.removed == |candidates - failing| && result.failed == |candidates * failing|
      ensures result.kept == |disk.dir| - if confirm then 0 else |candidates|
      ensures Balanced(result, confirm, |old(disk.dir)|, Total(Infos(old(disk), walk)))
      ensures confirm ==> forall walk' :: Walk(disk, walk') ==> Total(Infos(disk, walk')) == result.bytesKept
      ensures confirm && candidates !! failing && policy.maxBytes > 0 ==> result.bytesKept <= policy.maxBytes
      ensures confirm && candidates !! failing ==> Settled(disk, policy, now)
    {
      var objects := Infos(disk, walk);
      InfosDistinct(disk, walk);
      var removeSet := CleanupCandidates(objects, policy, now);
      candidates := removeSet;
      ghost var before := disk;
      CandidatesExist(objects, policy, now, removeSet);
      RemovedAll(objects, removeSet, failing);
      result := RemoveObjects(objects, removeSet, confirm, failing);
      RemovalKeepsDisk(hash, before, contents, confirm, removeSet - failing);
      CleanupCounts(before, walk, removeSet, confirm, failing);
      if confirm { AfterCleanup(before, walk, policy, now, removeSet, failing, disk); }
    }

    /** The loop of Cleanup. */
    method RemoveObjects(objects: seq<ObjectInfo>, removeSet: set<Path>, confirm: bool, failing: set<Path>)
      returns (result: CleanupResult)
      modifies this`disk
      ensures disk == old(disk).(dir := Without(old(disk.dir), confirm, Removed(objects, removeSet, failing)))
      ensures result == Report(objects, removeSet, confirm, failing)
    {
      result := CleanupResult(!confirm, 0, 0, 0, 0, 0, 0, 0);
      for i := 0 to |objects|
        invariant disk == old(disk).(dir := Without(old(disk.dir), confirm, Removed(objects[..i], removeSet, failing)))
        invariant result == Report(objects[..i], removeSet, confirm, failing)
      {
        var entry := objects[i];
        var chosen, fails := entry.path in removeSet, entry.path in failing;
        RemovedStep(objects, removeSet, failing, i, old(disk.dir), confirm);
        assert objects[..i + 1] == objects[..i] + [entry];
        AccountStep(objects[..i], entry, removeSet, confirm, failing);
        result := Account(result, entry, chosen, fails);
        if confirm && chosen && !fails {
          disk := Unlink(disk, entry.path);
        }
      }
      assert objects[..|objects|] == objects;
    }
  }

  /** How one file enters the report of a cleanup. */
  function Account(r: CleanupResult, entry: ObjectInfo, chosen: bool, fails: bool): CleanupResult {
    if !chosen then r.(kept := r.kept + 1, bytesKept := r.bytesKept + entry.size)
    else
      var w := r.(wouldRemove := r.wouldRemove + 1, bytesWouldRemove := r.bytesWouldRemove + entry.size);
      if r.dryRun then w
      else if fails then w.(failed := w.failed + 1, kept := w.kept + 1, bytesKept := w.bytesKept + entry.size)
      else w.(removed := w.removed + 1, bytesRemoved := w.bytesRemoved + entry.size)
  }

  /** The report on these files: how many and how many bytes were to go, went, failed to
      go and stay. */
  function Report(objects: seq<ObjectInfo>, candidates: set<Path>, confirm: bool, failing: set<Path>): CleanupResult {
    var gone := if confirm then candidates - failing else {};
    var stuck := if confirm then candidates * failing else {};
    var left := Remaining(objects, if confirm then candidates - failing else candidates);
    CleanupResult(
      !confirm,
      |Chosen(objects, candidates)|, |Chosen(objects, gone)|, |Chosen(objects, stuck)|, |left|,
      Total(Chosen(objects, candidates)), Total(Chosen(objects, gone)), Total(left))
  }

  lemma ChosenStep(objects: seq<ObjectInfo>, entry: ObjectInfo, paths: set<Path>)
    ensures var more := if entry.path in paths then 1 else 0;
            && |Chosen(objects + [entry], paths)| == |Chosen(objects, paths)| + more
            && |Remaining(objects + [entry], paths)| == |Remaining(objects, paths)| + 1 - more
            && Total(Chosen(objects + [entry], paths)) == Total(Chosen(objects, paths)) + more * entry.size
            && Total(Remaining(objects + [entry], paths)) == Total(Remaining(objects, paths)) + (1 - more) * entry.size
  {
    ChosenConcat(objects, [entry], paths);
    RemainingConcat(objects, [entry], paths);
    TotalConcat(Chosen(objects, paths), Chosen([entry], paths));
    TotalConcat(Remaining(objects, paths), Remaining([entry], paths));
    assert [entry][1..] == [] && [entry] + [] == [entry];
    assert Total([entry]) == entry.size;
  }

  lemma AccountStep(objects: seq<ObjectInfo>, entry: ObjectInfo, candidates: set<Path>, confirm: bool,
                    failing: set<Path>)
    ensures Account(Report(objects, candidates, confirm, failing), entry,
                    entry.path in candidates, entry.path in failing) ==
            Report(objects + [entry], candidates, confirm, failing)
  {
    ChosenStep(objects, entry, candidates);
    ChosenStep(objects, entry, candidates - failing);
    ChosenStep(objects, entry, candidates * failing);
    ChosenStep(objects, entry, {});
  }

  /** The report accounts for n files and their bytes, each exactly once. */
  predicate Balanced(r: CleanupResult, confirm: bool, n: nat, bytes: nat) {
    && r.dryRun == !confirm
    && (confirm ==> r.removed + r.failed == r.wouldRemove && r.removed + r.kept == n)
    && (confirm ==> r.bytesRemoved + r.bytesKept == bytes)
    && (!confirm ==> r.removed == r.failed == r.bytesRemoved == 0)
    && (!confirm ==> r.wouldRemove + r.kept == n && r.bytesWouldRemove + r.bytesKept == bytes)
  }

  lemma ReportBalanced(objects: seq<ObjectInfo>, candidates: set<Path>, confirm: bool, failing: set<Path>)
    ensures Balanced(Report(objects, candidates, confirm, failing), confirm, |objects|, Total(objects))
  {
    ChosenAndRemaining(objects, candidates);
    ChosenAndRemaining(objects, candidates - failing);
    ChosenApart(objects, candidates - failing, candidates * failing);
    assert (candidates - failing) + (candidates * failing) == candidates;
    NoneChosen(objects);
  }

  lemma {:induction false} NoneChosen(objects: seq<ObjectInfo>)
    ensures Chosen(objects, {}) == []
  {
    if objects != [] { NoneChosen(objects[1..]); }
  }

  /** With distinct paths, the report counts the paths themselves. */
  lemma ReportCounts(objects: seq<ObjectInfo>, candidates: set<Path>, confirm: bool, failing: set<Path>)
    requires DistinctPaths(objects) && candidates <= Paths(objects)
    ensures var r := Report(objects, candidates, confirm, failing);
            && r.wouldRemove == |candidates| && |objects| == |Paths(objects)|
            && (confirm ==> r.removed == |candidates - failing| && r.failed == |candidates * failing|)
  {
    ChosenSize(objects, candidates);
    ChosenSize(objects, candidates - failing);
    ChosenSize(objects, candidates * failing);
    ChosenSize(objects, Paths(objects));
    assert forall o :: o in objects ==> o.path in Paths(objects);
    AllChosen(objects, Paths(objects));
  }

  lemma {:induction false} AllChosen(objects: seq<ObjectInfo>, paths: set<Path>)
    requires forall o :: o in objects ==> o.path in paths
    ensures Chosen(objects, paths) == objects
  {
    if objects != [] {
      assert objects[0] in objects && forall o :: o in objects[1..] ==> o in objects;
      AllChosen(objects[1..], paths);
    }
  }

  /** What a confirmed cleanup has left on the disk. */
  lemma AfterCleanup(d: Disk, walk: seq<Path>, policy: RetentionPolicy, now: int, candidates: set<Path>,
                     failing: set<Path>, d': Disk)
    requires Sound(d) && Walk(d, walk) && RemovesOldest(Infos(d, walk), policy, now, candidates)
    requires d' == d.(dir := d.dir - (candidates - failing))
    ensures var r := Report(Infos(d, walk), candidates, true, failing);
            && Sound(d')
            && (forall walk' :: Walk(d', walk') ==> Total(Infos(d', walk')) == r.bytesKept)
            && (candidates !! failing ==> Settled(d', policy, now))
            && (candidates !! failing && policy.maxBytes > 0 ==> r.bytesKept <= policy.maxBytes)
  {
    var infos := Infos(d, walk);
    forall walk' | Walk(d', walk')
      ensures Total(Infos(d', walk')) == Total(Remaining(infos, candidates - failing))
    {
      WalkAfter(d, walk, candidates - failing, d', walk');
      TotalSame(Infos(d', walk'), Remaining(infos, candidates - failing));
    }
    if candidates !! failing {
      assert candidates - failing == candidates;
      RemovalSettles(d, walk, policy, now, candidates, d');
    }
  }

  /** The paths a confirmed cleanup has removed among these objects. */
  function Removed(objects: seq<ObjectInfo>, removeSet: set<Path>, failing: set<Path>): set<Path> {
    set o | o in objects && o.path in removeSet && o.path !in failing :: o.path
  }

  function Without(dir: map<Path, nat>, confirm: bool, removed: set<Path>): map<Path, nat> {
    if confirm then dir - removed else dir
  }

  lemma RemovedStep(objects: seq<ObjectInfo>, removeSet: set<Path>, failing: set<Path>, i: nat,
                    dir: map<Path, nat>, confirm: bool)
    requires i < |objects|
    ensures Total(objects[..i + 1]) == Total(objects[..i]) + objects[i].size
    ensures var gone := confirm && objects[i].path in removeSet && objects[i].path !in failing;
            Without(dir, confirm, Removed(objects[..i + 1], removeSet, failing)) ==
            Without(dir, confirm, Removed(objects[..i], removeSet, failing)) - (if gone then {objects[i].path} else {})
  {
    assert objects[..i + 1] == objects[..i] + [objects[i]];
    TotalConcat(objects[..i], [objects[i]]);
    assert Removed(objects[..i + 1], removeSet, failing) ==
           Removed(objects[..i], removeSet, failing) +
           (if objects[i].path in removeSet && objects[i].path !in failing then {objects[i].path} else {});
  }

  lemma RemovalKeepsDisk(hash: Hash, d: Disk, contents: set<Bytes>, confirm: bool, gone: set<Path>)
    requires DiskOk(hash, d, contents)
    ensures DiskOk(hash, d.(dir := Without(d.dir, confirm, gone)), contents)
  {
  }

  /** The counters of a cleanup, against the directory before and after it. */
  lemma CleanupCounts(d: Disk, walk: seq<Path>, candidates: set<Path>, confirm: bool, failing: set<Path>)
    requires Sound(d) && Walk(d, walk) && candidates <= Paths(Infos(d, walk))
    ensures var r := Report(Infos(d, walk), candidates, confirm, failing);
            var dir := Without(d.dir, confirm, candidates - failing);
            && r.wouldRemove == |candidates|
            && (confirm ==> r.removed == |candidates - failing| && r.failed == |candidates * failing|)
            && r.kept == |dir| - (if confirm then 0 else |candidates|)
            && Balanced(r, confirm, |d.dir|, Total(Infos(d, walk)))
  {
    var objects := Infos(d, walk);
    InfosDistinct(d, walk);
    ReportCounts(objects, candidates, confirm, failing);
    ReportBalanced(objects, candidates, confirm, failing);
    assert |d.dir| == |d.dir.Keys|;
    var dir := d.dir - (candidates - failing);
    assert dir.Keys == d.dir.Keys - (candidates - failing) && |dir| == |dir.Keys|;
  }

  lemma CandidatesExist(objects: seq<ObjectInfo>, policy: RetentionPolicy, now: int, candidates: set<Path>)
    requires RemovesOldest(objects, policy, now, candidates)
    ensures candidates <= Paths(objects)
  {
    var order :| CutInOrder(objects, policy, now, candidates, order);
    SamePaths(order, objects);
    var k := Cut(order, policy, now);
    assert order == order[..k] + order[k..];
    PathsConcat(order[..k], order[k..]);
  }

  lemma RemovedAll(objects: seq<ObjectInfo>, candidates: set<Path>, failing: set<Path>)
    requires candidates <= Paths(objects)
    ensures Removed(objects, candidates, failing) == candidates - failing
  {
  }
}
