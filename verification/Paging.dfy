/** The paging protocol of the study read model, as a state machine.

    A stateless server answers one request at a time in separate file-system steps (stat, open,
    fstat, raw reads, fstat).  Between any two of them a writer may rename a new file onto the
    path or rewrite a file in place.  The client follows `next_offset` until `eof`, and begins
    again, at most three times, when the server says `restart`.

    Assumptions: a file stamp (inode, mtime, size) is never reused, and the fingerprint is an
    injective function of the stamp, so that the stamp itself stands for it. */
module Paging {
  import opened Options

  const PAGE: nat := 512 * 1024
  const ATTEMPTS: nat := 3

  type Bytes = seq<bv8>

  datatype Stamp = Stamp(ino: nat, mtime: int, size: nat)

  datatype File = File(mtime: int, bytes: Bytes)

  /** The directory entry, the inodes, and (for the statement) every generation ever stored. */
  datatype Disk = Disk(path: nat, inodes: map<nat, File>, archive: map<Stamp, Bytes>, published: set<Stamp>)

  function StampOf(disk: Disk, ino: nat): Stamp
    requires ino in disk.inodes
  {
    Stamp(ino, disk.inodes[ino].mtime, |disk.inodes[ino].bytes|)
  }

  /** Where the server is inside the current request. */
  datatype Server =
    | Arrived
    | Opening(before: Stamp)
    | Checking(before: Stamp, fd: nat)
    | Reading(before: Stamp, fd: nat, chunk: Bytes, drained: bool)

  datatype Outcome =
    | Pending
    | Value(stamp: Stamp, bytes: Bytes)
    | Changed
    | ProtocolError

  /** The client: attempt, cursor, known fingerprint, bytes so far, and its cached value. */
  datatype Client = Client(
    attempt: nat, offset: nat, known: Option<Stamp>, data: Bytes, pages: nat,
    cached: Option<(Stamp, Bytes)>, outcome: Outcome)

  datatype World = World(disk: Disk, server: Server, client: Client)

  datatype Reply =
    | Unchanged(fingerprint: Stamp)
    | Restart
    | BadOffset
    | Page(fingerprint: Stamp, offset: nat, next: nat, eof: bool, chunk: Bytes)

  // ----- the writer -----

  datatype Action =
    | Rename(ino: nat, mtime: int, bytes: Bytes)
    | Rewrite(ino: nat, mtime: int, bytes: Bytes)
    | Serve(rawRead: nat)

  predicate Fresh(disk: Disk, stamp: Stamp) { stamp !in disk.archive }

  function Store(disk: Disk, path: nat, ino: nat, mtime: int, bytes: Bytes): Disk {
    var stamp := Stamp(ino, mtime, |bytes|);
    Disk(path, disk.inodes[ino := File(mtime, bytes)], disk.archive[stamp := bytes],
         if ino == path then disk.published + {stamp} else disk.published)
  }

  // ----- the server -----

  function Take(bytes: Bytes, from: nat, count: nat): Bytes {
    if from >= |bytes| then []
    else if from + count >= |bytes| then bytes[from..]
    else bytes[from..from + count]
  }

  /** The checks made between stat and open. */
  function AfterStat(before: Stamp, client: Client): Option<Reply> {
    if client.offset == 0 && client.known == Some(before) then Some(Unchanged(before))
    else if client.offset != 0 && client.known != Some(before) then Some(Restart)
    else if client.offset > before.size then Some(BadOffset)
    else None
  }

  /** The page sent after the last fstat, or a restart when the open file has changed. */
  function AfterRead(disk: Disk, before: Stamp, fd: nat, chunk: Bytes, offset: nat): Reply
    requires fd in disk.inodes
  {
    if disk.inodes[fd].mtime != before.mtime || |disk.inodes[fd].bytes| != before.size then Restart
    else Page(before, offset, offset + |chunk|, offset + |chunk| == before.size, chunk)
  }

  // ----- the client -----

  function Begin(client: Client): Client {
    client.(offset := 0, data := [], pages := 0,
            known := if client.cached.Some? then Some(client.cached.value.0) else None)
  }

  function Receive(client: Client, reply: Reply): Client {
    match reply
    case Unchanged(fingerprint) =>
      if client.offset != 0 || client.cached.None? || client.cached.value.0 != fingerprint
      then client.(outcome := ProtocolError)
      else client.(outcome := Value(fingerprint, client.cached.value.1))
    case Restart =>
      if client.attempt + 1 >= ATTEMPTS then client.(cached := None, outcome := Changed)
      else Begin(client.(attempt := client.attempt + 1, cached := None))
    case BadOffset => client.(outcome := ProtocolError)
    case Page(fingerprint, offset, next, eof, chunk) =>
      if client.offset != 0 && client.known != Some(fingerprint) then client.(outcome := ProtocolError)
      else if |chunk| > PAGE || offset != client.offset || next != client.offset + |chunk|
      then client.(outcome := ProtocolError)
      else if eof then
        client.(data := client.data + chunk, pages := client.pages + 1,
                cached := Some((fingerprint, client.data + chunk)),
                outcome := Value(fingerprint, client.data + chunk))
      else if next <= client.offset then client.(outcome := ProtocolError)
      else client.(known := Some(fingerprint), data := client.data + chunk, pages := client.pages + 1, offset := next)
  }

  // ----- one step of the system -----

  function ServerStep(w: World, rawRead: nat): World
    requires w.disk.path in w.disk.inodes
    requires (w.server.Checking? || w.server.Reading?) ==> w.server.fd in w.disk.inodes
  {
    match w.server
    case Arrived =>
      var before := StampOf(w.disk, w.disk.path);
      var reply := AfterStat(before, w.client);
      if reply.Some? then w.(client := Receive(w.client, reply.value))
      else w.(server := Opening(before))
    case Opening(before) => w.(server := Checking(before, w.disk.path))
    case Checking(before, fd) =>
      if StampOf(w.disk, fd) != before then w.(server := Arrived, client := Receive(w.client, Restart))
      else w.(server := Reading(before, fd, [], false))
    case Reading(before, fd, chunk, drained) =>
      if drained || |chunk| >= PAGE then
        w.(server := Arrived, client := Receive(w.client, AfterRead(w.disk, before, fd, chunk, w.client.offset)))
      else
        var more := Take(w.disk.inodes[fd].bytes, w.client.offset + |chunk|, RawCount(rawRead, |chunk|));
        w.(server := Reading(before, fd, chunk + more, more == []))
  }

  /** A raw read asks for between one byte and what is left of the page. */
  function RawCount(rawRead: nat, have: nat): nat
    requires have < PAGE
  {
    if rawRead == 0 then 1 else if rawRead > PAGE - have then PAGE - have else rawRead
  }

  predicate Enabled(w: World, a: Action) {
    match a
    case Rename(ino, mtime, bytes) =>
      Fresh(w.disk, Stamp(ino, mtime, |bytes|))
    case Rewrite(ino, mtime, bytes) =>
      ino in w.disk.inodes && Fresh(w.disk, Stamp(ino, mtime, |bytes|))
    case Serve(_) =>
      && w.client.outcome == Pending
      && w.disk.path in w.disk.inodes
      && ((w.server.Checking? || w.server.Reading?) ==> w.server.fd in w.disk.inodes)
  }

  function Step(w: World, a: Action): World
    requires Enabled(w, a)
  {
    match a
    case Rename(ino, mtime, bytes) => w.(disk := Store(w.disk, ino, ino, mtime, bytes))
    case Rewrite(ino, mtime, bytes) => w.(disk := Store(w.disk, w.disk.path, ino, mtime, bytes))
    case Serve(rawRead) => ServerStep(w, rawRead)
  }

  /** Runs: any interleaving of the writer's and the reader's steps; steps that are not enabled
      do nothing. */
  function Run(w: World, actions: seq<Action>): World {
    if actions == [] then w
    else
      var u := Run(w, actions[..|actions|-1]);
      var a := actions[|actions|-1];
      if Enabled(u, a) then Step(u, a) else u
  }

  /** What a write leaves behind: a rename puts the new file on the path, a rewrite changes one file where
      it is; no other file, and nothing of the reader or the server, changes. */
  lemma WritesAreWritten(w: World, ino: nat, mtime: int, bytes: Bytes)
    ensures Enabled(w, Rename(ino, mtime, bytes)) ==> var u := Step(w, Rename(ino, mtime, bytes));
      u.disk.path == ino && Changes(w, u, ino, mtime, bytes)
    ensures Enabled(w, Rewrite(ino, mtime, bytes)) ==> var u := Step(w, Rewrite(ino, mtime, bytes));
      u.disk.path == w.disk.path && Changes(w, u, ino, mtime, bytes)
  {}

  ghost predicate Changes(w: World, u: World, ino: nat, mtime: int, bytes: Bytes) {
    && u.server == w.server && u.client == w.client
    && ino in u.disk.inodes && u.disk.inodes[ino] == File(mtime, bytes)
    && forall i :: i in w.disk.inodes && i != ino ==> i in u.disk.inodes && u.disk.inodes[i] == w.disk.inodes[i]
  }

  // ----- what every step keeps -----

  ghost predicate Stored(disk: Disk, stamp: Stamp, bytes: Bytes) {
    stamp in disk.archive && disk.archive[stamp] == bytes && |bytes| == stamp.size
  }

  ghost predicate DiskInv(disk: Disk) {
    && disk.path in disk.inodes
    && (forall ino :: ino in disk.inodes ==> Stored(disk, StampOf(disk, ino), disk.inodes[ino].bytes))
    && StampOf(disk, disk.path) in disk.published
  }

  /** The server's chunk is the right slice of the generation it stat-ed, unless the open file
      has changed since, and then its stamp never comes back. */
  ghost predicate ServerInv(w: World) {
    match w.server
    case Arrived => true
    case Opening(before) => Asked(w, before)
    case Checking(before, fd) => Asked(w, before) && fd in w.disk.inodes
    case Reading(before, fd, chunk, drained) =>
      && Asked(w, before)
      && fd in w.disk.inodes && before.ino == fd
      && |chunk| <= PAGE
      && (StampOf(w.disk, fd) == before ==>
            && chunk == Take(w.disk.archive[before], w.client.offset, |chunk|)
            && w.client.offset + |chunk| <= before.size
            && (drained ==> w.client.offset + |chunk| == before.size))
  }

  /** A request in progress: its stat was of a published generation that matches its cursor. */
  ghost predicate Asked(w: World, before: Stamp) {
    && before in w.disk.published && before in w.disk.archive && |w.disk.archive[before]| == before.size
    && w.client.offset <= before.size
    && (w.client.offset == 0 <==> w.client.known != Some(before))
  }

  ghost predicate ClientInv(w: World) {
    && w.client.attempt < ATTEMPTS
    && (w.client.cached.Some? ==> Snapshot(w.disk, w.client.cached.value.0, w.client.cached.value.1))
    && match w.client.outcome
       case Pending =>
         && |w.client.data| == w.client.offset
         && w.client.offset == w.client.pages * PAGE
         && (w.client.offset == 0 && w.client.cached.None? ==> w.client.known == None)
         && (w.client.offset == 0 && w.client.cached.Some? ==> w.client.known == Some(w.client.cached.value.0))
         && (w.client.offset != 0 ==>
               && w.client.known.Some?
               && w.client.known.value in w.disk.published && w.client.known.value in w.disk.archive
               && w.client.data <= w.disk.archive[w.client.known.value]
               && w.client.offset < w.client.known.value.size)
       case Value(stamp, bytes) => Snapshot(w.disk, stamp, bytes)
       case Changed => true
       case ProtocolError => false
  }

  /** Exactly the bytes of one generation that was the file at the path at some moment. */
  ghost predicate Snapshot(disk: Disk, stamp: Stamp, bytes: Bytes) {
    stamp in disk.published && Stored(disk, stamp, bytes)
  }

  ghost predicate Inv(w: World) {
    DiskInv(w.disk) && ServerInv(w) && ClientInv(w)
  }

  /** A read begins with a consistent disk and a cached value that is a snapshot, if any. */
  ghost predicate Initial(w: World) {
    && DiskInv(w.disk) && w.server == Arrived && w.client.attempt == 0 && w.client.outcome == Pending
    && w.client == Begin(w.client)
    && (w.client.cached.Some? ==> Snapshot(w.disk, w.client.cached.value.0, w.client.cached.value.1))
  }

  /** Generations are only ever added. */
  ghost predicate Extends(earlier: Disk, later: Disk) {
    && earlier.published <= later.published
    && forall stamp :: stamp in earlier.archive ==>
        stamp in later.archive && later.archive[stamp] == earlier.archive[stamp]
  }

  lemma WriterKeepsDisk(disk: Disk, path: nat, ino: nat, mtime: int, bytes: Bytes)
    requires DiskInv(disk) && Fresh(disk, Stamp(ino, mtime, |bytes|))
    requires path == disk.path || path == ino
    ensures DiskInv(Store(disk, path, ino, mtime, bytes))
    ensures Extends(disk, Store(disk, path, ino, mtime, bytes))
  {
    var later := Store(disk, path, ino, mtime, bytes);
    forall i | i in later.inodes
      ensures Stored(later, StampOf(later, i), later.inodes[i].bytes)
    {
      if i != ino {
        assert Stored(disk, StampOf(disk, i), disk.inodes[i].bytes);
      }
    }
  }

  /** The writer cannot disturb a request in progress except by changing the open file, and
      then the new stamp differs from the one that was stat-ed. */
  lemma WriterKeepsInv(w: World, path: nat, ino: nat, mtime: int, bytes: Bytes)
    requires Inv(w) && Fresh(w.disk, Stamp(ino, mtime, |bytes|))
    requires path == w.disk.path || path == ino
    ensures Inv(w.(disk := Store(w.disk, path, ino, mtime, bytes)))
  {
    WriterKeepsDisk(w.disk, path, ino, mtime, bytes);
  }

  lemma TakeMore(bytes: Bytes, from: nat, chunk: Bytes, count: nat)
    requires chunk == Take(bytes, from, |chunk|) && from + |chunk| <= |bytes| && count > 0
    ensures var more := Take(bytes, from + |chunk|, count);
      && |more| <= count
      && chunk + more == Take(bytes, from, |chunk + more|)
      && from + |chunk + more| <= |bytes|
      && (more == [] ==> from + |chunk + more| == |bytes|)
  {
    var more := Take(bytes, from + |chunk|, count);
    if chunk == [] {
      assert chunk + more == more;
    } else {
      assert bytes[from..from + |chunk + more|] == chunk + more;
    }
  }

  lemma PageExtends(bytes: Bytes, data: Bytes, chunk: Bytes)
    requires data <= bytes && chunk == Take(bytes, |data|, |chunk|) && |data| + |chunk| <= |bytes|
    ensures data + chunk <= bytes
    ensures |data| + |chunk| == |bytes| ==> data + chunk == bytes
  {
    if chunk == [] {
      assert data + chunk == data;
    } else {
      assert bytes[..|data| + |chunk|] == data + chunk;
    }
  }

  /** What the client makes of a reply that is honest about one published generation. */
  lemma PageKeepsClient(w: World, before: Stamp, chunk: Bytes)
    requires Inv(w) && w.client.outcome == Pending && Asked(w, before)
    requires |chunk| <= PAGE && w.client.offset + |chunk| <= before.size
    requires chunk == Take(w.disk.archive[before], w.client.offset, |chunk|)
    requires |chunk| == PAGE || w.client.offset + |chunk| == before.size
    ensures var page := Page(before, w.client.offset, w.client.offset + |chunk|,
        w.client.offset + |chunk| == before.size, chunk);
      Inv(w.(server := Arrived, client := Receive(w.client, page)))
  {
    var bytes := w.disk.archive[before];
    if w.client.offset == 0 {
      assert w.client.data == [];
    }
    PageExtends(bytes, w.client.data, chunk);
  }

  lemma RestartKeepsClient(w: World)
    requires Inv(w) && w.client.outcome == Pending
    ensures Inv(w.(server := Arrived, client := Receive(w.client, Restart)))
  {}

  /** A raw read in the middle of a page keeps the chunk a slice of the generation stat-ed. */
  lemma ReadMore(w: World, rawRead: nat)
    requires Inv(w) && w.server.Reading? && !w.server.drained && |w.server.chunk| < PAGE
    ensures Inv(ServerStep(w, rawRead))
  {
    var Reading(before, fd, chunk, drained) := w.server;
    var bytes, from, count := w.disk.inodes[fd].bytes, w.client.offset + |chunk|, RawCount(rawRead, |chunk|);
    assert Stored(w.disk, StampOf(w.disk, fd), bytes);
    TakeAtMost(bytes, from, count);
    assert StampOf(w.disk, fd) == before ==> bytes == w.disk.archive[before];
    hide Stored, ClientInv, Receive, AfterRead, DiskInv, Asked, Take;
    if StampOf(w.disk, fd) == before {
      TakeMore(bytes, w.client.offset, chunk, count);
    }
  }

  lemma TakeAtMost(bytes: Bytes, from: nat, count: nat)
    ensures |Take(bytes, from, count)| <= count
  {}

  lemma ReadKeepsInv(w: World, rawRead: nat)
    requires Inv(w) && w.client.outcome == Pending && w.server.Reading?
    ensures Inv(ServerStep(w, rawRead))
  {
    var Reading(before, fd, chunk, drained) := w.server;
    if drained || |chunk| >= PAGE {
      hide Inv, Receive;
      PageEnds(w, rawRead);
    } else {
      hide Inv, ServerStep;
      ReadMore(w, rawRead);
    }
  }

  /** At the end of a page the client gets the slice, or a restart when the open file has changed. */
  lemma PageEnds(w: World, rawRead: nat)
    requires Inv(w) && w.client.outcome == Pending && w.server.Reading?
    requires w.server.drained || |w.server.chunk| >= PAGE
    ensures Inv(ServerStep(w, rawRead))
  {
    var Reading(before, fd, chunk, drained) := w.server;
    assert Stored(w.disk, StampOf(w.disk, fd), w.disk.inodes[fd].bytes);
    hide ClientInv, Receive;
    if StampOf(w.disk, fd) == before {
      PageKeepsClient(w, before, chunk);
    } else {
      RestartKeepsClient(w);
    }
  }

  lemma ServeKeepsInv(w: World, rawRead: nat)
    requires Inv(w) && w.client.outcome == Pending
    ensures Inv(ServerStep(w, rawRead))
  {
    match w.server
    case Arrived =>
      var before := StampOf(w.disk, w.disk.path);
      assert Stored(w.disk, before, w.disk.inodes[w.disk.path].bytes);
    case Opening(before) =>
    case Checking(before, fd) =>
      if StampOf(w.disk, fd) != before {
        RestartKeepsClient(w);
      }
    case Reading(_, _, _, _) => ReadKeepsInv(w, rawRead);
  }

  lemma {:induction false} RunKeepsInv(w: World, actions: seq<Action>)
    requires Inv(w)
    ensures Inv(Run(w, actions))
  {
    if actions != [] {
      var u := Run(w, actions[..|actions|-1]);
      var a := actions[|actions|-1];
      RunKeepsInv(w, actions[..|actions|-1]);
      if Enabled(u, a) {
        match a
        case Rename(ino, mtime, bytes) => WriterKeepsInv(u, ino, ino, mtime, bytes);
        case Rewrite(ino, mtime, bytes) => WriterKeepsInv(u, u.disk.path, ino, mtime, bytes);
        case Serve(rawRead) => ServeKeepsInv(u, rawRead);
      }
    }
  }

  /** At some moment of the run the path carried this generation. */
  ghost predicate SeenDuring(w: World, actions: seq<Action>, stamp: Stamp) {
    exists k :: 0 <= k <= |actions| && AtPath(Run(w, actions[..k]), stamp)
  }

  ghost predicate AtPath(w: World, stamp: Stamp) {
    w.disk.path in w.disk.inodes && StampOf(w.disk, w.disk.path) == stamp
  }

  /** Everything the reader relies on was seen at the path during this read. */
  ghost predicate Witnessed(w: World, actions: seq<Action>, u: World) {
    && (!u.server.Arrived? ==> SeenDuring(w, actions, u.server.before))
    && (u.client.outcome == Pending && u.client.offset != 0 && u.client.known.Some? ==>
        SeenDuring(w, actions, u.client.known.value))
    && (u.client.outcome.Value? ==> SeenDuring(w, actions, u.client.outcome.stamp))
  }

  lemma SeenLater(w: World, actions: seq<Action>, stamp: Stamp)
    requires actions != [] && SeenDuring(w, actions[..|actions|-1], stamp)
    ensures SeenDuring(w, actions, stamp)
  {
    var k :| 0 <= k <= |actions| - 1 && AtPath(Run(w, actions[..|actions|-1][..k]), stamp);
    assert actions[..|actions|-1][..k] == actions[..k];
  }

  lemma {:induction false} RunIsWitnessed(w: World, actions: seq<Action>)
    requires Initial(w)
    ensures Witnessed(w, actions, Run(w, actions))
  {
    if actions != [] {
      var prefix := actions[..|actions|-1];
      var u := Run(w, prefix);
      RunIsWitnessed(w, prefix);
      RunKeepsInv(w, prefix);
      SeenNow(w, actions);
      forall stamp | SeenDuring(w, prefix, stamp) ensures SeenDuring(w, actions, stamp) {
        SeenLater(w, actions, stamp);
      }
      WitnessedStep(w, actions, u);
    }
  }

  lemma SeenNow(w: World, actions: seq<Action>)
    requires actions != [] && Inv(Run(w, actions[..|actions|-1]))
    ensures var u := Run(w, actions[..|actions|-1]); SeenDuring(w, actions, StampOf(u.disk, u.disk.path))
  {
    var u := Run(w, actions[..|actions|-1]);
    assert AtPath(u, StampOf(u.disk, u.disk.path));
  }

  lemma WitnessedStep(w: World, actions: seq<Action>, u: World)
    requires actions != [] && u == Run(w, actions[..|actions|-1]) && Inv(u)
    requires Witnessed(w, actions, u) && SeenDuring(w, actions, StampOf(u.disk, u.disk.path))
    ensures Witnessed(w, actions, Run(w, actions))
  {
    hide SeenDuring, Stored, Take, DiskInv, Store;
  }

  /** Snapshot consistency: however the writer interferes, a read that returns a value returns
      exactly what the file at the path contained at one moment of that read, and the client's
      checks of the server's replies never fail. */
  lemma ReadsAreSnapshots(w: World, actions: seq<Action>)
    requires Initial(w)
    ensures var u := Run(w, actions);
      && u.client.outcome != ProtocolError
      && (u.client.outcome.Value? ==>
            exists k :: 0 <= k <= |actions| && Contains(Run(w, actions[..k]), u.client.outcome.bytes))
  {
    var u := Run(w, actions);
    RunKeepsInv(w, actions);
    RunIsWitnessed(w, actions);
    if u.client.outcome.Value? {
      var stamp := u.client.outcome.stamp;
      var k :| 0 <= k <= |actions| && AtPath(Run(w, actions[..k]), stamp);
      var v := Run(w, actions[..k]);
      RunKeepsInv(w, actions[..k]);
      assert Stored(v.disk, stamp, v.disk.inodes[v.disk.path].bytes);
      RunExtends(w, actions, k);
    }
  }

  ghost predicate Contains(w: World, bytes: Bytes) {
    w.disk.path in w.disk.inodes && w.disk.inodes[w.disk.path].bytes == bytes
  }

  lemma {:induction false} RunExtends(w: World, actions: seq<Action>, k: nat)
    requires Inv(w) && k <= |actions|
    ensures Extends(Run(w, actions[..k]).disk, Run(w, actions).disk)
    decreases |actions|
  {
    if k == |actions| {
      assert actions[..k] == actions;
    } else {
      var prefix := actions[..|actions|-1];
      assert prefix[..k] == actions[..k];
      RunExtends(w, prefix, k);
      RunKeepsInv(w, prefix);
    }
  }

  // ----- a quiescent writer -----

  function PagesOf(size: nat): nat { if size == 0 then 1 else (size + PAGE - 1) / PAGE }

  ghost predicate AllServe(actions: seq<Action>) { forall i :: 0 <= i < |actions| ==> actions[i].Serve? }

  /** With no writer, the open file stays the file at the path. */
  ghost predicate QuietInv(w: World, disk: Disk, known: Option<Stamp>) {
    && Inv(w) && w.disk == disk
    && var now := StampOf(disk, disk.path);
    && (!w.server.Arrived? ==> w.server.before == now)
    && (w.server.Checking? || w.server.Reading? ==> w.server.fd == disk.path)
    && match w.client.outcome
       case Pending =>
         && (w.client.offset == 0 ==> w.client.known == known)
         && (w.client.offset != 0 ==> w.client.known == Some(now) != known && w.client.offset < now.size)
       case Value(stamp, bytes) =>
         && stamp == now && bytes == disk.inodes[disk.path].bytes
         && w.client.pages == if known == Some(now) then 0 else PagesOf(now.size)
       case _ => false
  }

  /** An upper bound on the steps a pending read still needs. */
  function StepsLeft(w: World, size: nat): int {
    5 * (size - w.client.offset) +
    match w.server
    case Arrived => 5
    case Opening(_) => 4
    case Checking(_, _) => 3
    case Reading(_, _, chunk, drained) => (if drained then 1 else 2) - |chunk|
  }

  lemma LastPage(size: nat, pages: nat)
    requires pages * PAGE <= size <= (pages + 1) * PAGE
    requires pages * PAGE < size || size == 0
    ensures pages + 1 == PagesOf(size)
  {}

  lemma QuietStepsLeft(w: World, disk: Disk, known: Option<Stamp>)
    requires QuietInv(w, disk, known) && w.client.outcome == Pending
    ensures StepsLeft(w, |disk.inodes[disk.path].bytes|) > 0
  {
    hide Stored, Take, DiskInv;
  }

  lemma QuietStep(w: World, disk: Disk, known: Option<Stamp>, rawRead: nat)
    requires QuietInv(w, disk, known) && w.client.outcome == Pending
    ensures var u := ServerStep(w, rawRead); var size := |disk.inodes[disk.path].bytes|;
      QuietInv(u, disk, known) && (u.client.outcome == Pending ==> StepsLeft(u, size) < StepsLeft(w, size))
  {
    ServeKeepsInv(w, rawRead);
    assert Stored(disk, StampOf(disk, disk.path), disk.inodes[disk.path].bytes);
    if w.server.Reading? {
      QuietRead(w, disk, known, rawRead);
    }
  }

  lemma QuietRead(w: World, disk: Disk, known: Option<Stamp>, rawRead: nat)
    requires QuietInv(w, disk, known) && w.client.outcome == Pending && w.server.Reading?
    requires Inv(ServerStep(w, rawRead))
    ensures var u := ServerStep(w, rawRead); var size := |disk.inodes[disk.path].bytes|;
      QuietInv(u, disk, known) && (u.client.outcome == Pending ==> StepsLeft(u, size) < StepsLeft(w, size))
  {
    hide PagesOf;
    var Reading(before, fd, chunk, drained) := w.server;
    var size := |disk.inodes[disk.path].bytes|;
    assert Stored(disk, StampOf(disk, disk.path), disk.inodes[disk.path].bytes);
    if (drained || |chunk| >= PAGE) && w.client.offset + |chunk| == size {
      LastPage(size, w.client.pages);
    }
  }

  lemma {:induction false} QuietRun(w: World, known: Option<Stamp>, actions: seq<Action>)
    requires QuietInv(w, w.disk, known) && AllServe(actions)
    ensures var u := Run(w, actions); var size := |w.disk.inodes[w.disk.path].bytes|;
      && QuietInv(u, w.disk, known)
      && (w.client.outcome == Pending && u.client.outcome == Pending ==>
            |actions| + StepsLeft(u, size) <= StepsLeft(w, size))
  {
    if actions != [] {
      var prefix := actions[..|actions|-1];
      assert AllServe(prefix);
      QuietRun(w, known, prefix);
      var u := Run(w, prefix);
      hide QuietInv, StepsLeft, ServerStep;
      if u.client.outcome == Pending {
        QuietEnables(u, w.disk, known);
        QuietStep(u, w.disk, known, actions[|actions|-1].rawRead);
      }
      StaysFinished(w, prefix);
    }
  }

  lemma QuietEnables(w: World, disk: Disk, known: Option<Stamp>)
    requires QuietInv(w, disk, known) && w.client.outcome == Pending
    ensures forall rawRead :: Enabled(w, Serve(rawRead))
  {}

  lemma {:induction false} StaysFinished(w: World, actions: seq<Action>)
    ensures w.client.outcome != Pending ==> Run(w, actions).client.outcome == w.client.outcome
  {
    hide Store, ServerStep;
    if actions != [] {
      StaysFinished(w, actions[..|actions|-1]);
    }
  }

  /** With a quiescent writer every long enough run of the reader ends with the file's bytes,
      in max(1, ceil(size / PAGE)) pages, or in none when the cached value is still current. */
  lemma QuietReadsFinish(w: World, actions: seq<Action>)
    requires Initial(w) && AllServe(actions)
    ensures var u := Run(w, actions); var bytes := w.disk.inodes[w.disk.path].bytes;
      |actions| >= 5 * |bytes| + 5 ==>
        && u.client.outcome == Value(StampOf(w.disk, w.disk.path), bytes)
        && u.client.pages == if w.client.known == Some(StampOf(w.disk, w.disk.path)) then 0 else PagesOf(|bytes|)
  {
    assert StepsLeft(w, |w.disk.inodes[w.disk.path].bytes|) == 5 * |w.disk.inodes[w.disk.path].bytes| + 5;
    QuietRun(w, w.client.known, actions);
    if Run(w, actions).client.outcome == Pending {
      QuietStepsLeft(Run(w, actions), w.disk, w.client.known);
    }
    hide Inv, StepsLeft, Run;
  }

  // ----- few writes -----

  /** How many renames and rewrites the run carries out. */
  ghost function Writes(w: World, actions: seq<Action>): nat {
    if actions == [] then 0
    else
      var u, a := Run(w, actions[..|actions|-1]), actions[|actions|-1];
      Writes(w, actions[..|actions|-1]) + (if !a.Serve? && Enabled(u, a) then 1 else 0)
  }

  /** What the read relies on is what the path carries now. */
  ghost predicate Settled(w: World)
    requires w.disk.path in w.disk.inodes
  {
    var now := StampOf(w.disk, w.disk.path);
    && (!w.server.Arrived? ==> w.server.before == now)
    && (w.server.Checking? || w.server.Reading? ==> w.server.fd == w.disk.path)
    && (w.client.outcome == Pending && w.client.offset != 0 ==> w.client.known == Some(now))
  }

  /** Every attempt given up was spoilt by a write of its own, and so is the present one unless it is
      settled. */
  ghost predicate Paid(w: World, writes: nat)
    requires w.disk.path in w.disk.inodes
  {
    && (w.client.outcome == Pending ==> w.client.attempt + (if Settled(w) then 0 else 1) <= writes)
    && (w.client.outcome == Changed ==> writes >= 3)
  }

  lemma ServePays(w: World, rawRead: nat, writes: nat)
    requires Inv(w) && w.client.outcome == Pending && Paid(w, writes)
    ensures var u := ServerStep(w, rawRead); Inv(u) && Paid(u, writes)
  {
    ServeKeepsInv(w, rawRead);
    hide Stored, Snapshot, Take, RawCount;
  }

  lemma {:induction false} RunPays(w: World, actions: seq<Action>)
    requires Initial(w)
    ensures Inv(Run(w, actions)) && Paid(Run(w, actions), Writes(w, actions))
  {
    RunKeepsInv(w, actions);
    if actions != [] {
      var prefix, a := actions[..|actions|-1], actions[|actions|-1];
      var u := Run(w, prefix);
      RunPays(w, prefix);
      RunKeepsInv(w, prefix);
      hide Inv, Settled, Initial, ServerStep;
      if Enabled(u, a) && a.Serve? {
        ServePays(u, a.rawRead, Writes(w, prefix));
      }
    }
  }

  /** A read gives up only after three renames or rewrites. */
  lemma FewWritesNeverSpoil(w: World, actions: seq<Action>)
    requires Initial(w)
    ensures Writes(w, actions) < 3 ==> Run(w, actions).client.outcome != Changed
  {
    RunPays(w, actions);
    hide Inv, Initial, Run, Writes;
  }

  /** A file is renamed onto the path between the server's stat and its open. */
  function Spoil(file: (nat, int, Bytes)): seq<Action> {
    [Serve(1), Rename(file.0, file.1, file.2), Serve(1), Serve(1)]
  }

  function StampFor(file: (nat, int, Bytes)): Stamp { Stamp(file.0, file.1, |file.2|) }

  /** A read about to send its first request with nothing cached. */
  ghost predicate Beginning(w: World, attempt: nat) {
    && w.disk.path in w.disk.inodes && w.server == Arrived
    && StampOf(w.disk, w.disk.path) in w.disk.archive
    && w.client == Client(attempt, 0, None, [], 0, None, Pending)
  }

  lemma SpoilOnce(w: World, attempt: nat, file: (nat, int, Bytes))
    requires Beginning(w, attempt) && Fresh(w.disk, StampFor(file))
    ensures var u := Run(w, Spoil(file));
      && u.disk == Store(w.disk, file.0, file.0, file.1, file.2)
      && (if attempt + 1 >= 3 then u.client.outcome == Changed else Beginning(u, attempt + 1))
  {
    var actions := Spoil(file);
    var a := ServerStep(w, 1);
    var b := a.(disk := Store(w.disk, file.0, file.0, file.1, file.2));
    var c := ServerStep(b, 1);
    assert actions[..0] == [] && actions[..4] == actions;
    assert Run(w, actions[..0]) == w;
    RunOne(w, actions, 0);
    assert Run(w, actions[..1]) == a;
    RunOne(w, actions, 1);
    assert Run(w, actions[..2]) == b;
    RunOne(w, actions, 2);
    assert Run(w, actions[..3]) == c;
    RunOne(w, actions, 3);
    hide Run;
  }

  lemma RunOne(w: World, actions: seq<Action>, i: nat)
    requires i < |actions|
    ensures var u := Run(w, actions[..i]);
      Run(w, actions[..i+1]) == if Enabled(u, actions[i]) then Step(u, actions[i]) else u
  {
    assert actions[..i+1][..i] == actions[..i];
    hide Step, Enabled;
  }

  /** Three renames can spoil a read: it is given up when each of its three attempts meets one. */
  lemma ThreeWritesSpoil(w: World, first: (nat, int, Bytes), second: (nat, int, Bytes), third: (nat, int, Bytes))
    requires Initial(w) && w.client.cached.None?
    requires Fresh(w.disk, StampFor(first)) && Fresh(w.disk, StampFor(second)) && Fresh(w.disk, StampFor(third))
    requires StampFor(first) != StampFor(second) && StampFor(second) != StampFor(third)
    requires StampFor(third) != StampFor(first)
    ensures Run(w, Spoil(first) + Spoil(second) + Spoil(third)).client.outcome == Changed
  {
    assert Stored(w.disk, StampOf(w.disk, w.disk.path), w.disk.inodes[w.disk.path].bytes);
    assert Beginning(w, 0);
    hide Initial, Beginning, Spoil, Run;
    SpoilOnce(w, 0, first);
    var u := Run(w, Spoil(first));
    SpoilOnce(u, 1, second);
    var v := Run(u, Spoil(second));
    SpoilOnce(v, 2, third);
    RunConcat(w, Spoil(first), Spoil(second));
    RunConcat(w, Spoil(first) + Spoil(second), Spoil(third));
  }

  /** The page being served is the last one of a generation that has been replaced at the path and
      is still intact in the open file. */
  ghost predicate Late(w: World)
    requires w.disk.path in w.disk.inodes
    requires w.server.Checking? || w.server.Reading? ==> w.server.fd in w.disk.inodes
  {
    && w.client.outcome == Pending && (w.server.Checking? || w.server.Reading?)
    && w.server.before == StampOf(w.disk, w.server.fd) && w.server.before != StampOf(w.disk, w.disk.path)
    && w.server.before.size - w.client.offset <= PAGE
  }

  /** An upper bound on the steps an unsettled read needs to finish late or to begin again. */
  function Fade(w: World): int {
    match w.server
    case Arrived => 1
    case Opening(_) => PAGE + 5
    case Checking(_, _) => PAGE + 4
    case Reading(_, _, chunk, drained) => PAGE + (if drained then 2 else 3) - |chunk|
  }

  lemma FadePositive(w: World)
    requires Inv(w)
    ensures Fade(w) > 0
  {
    hide DiskInv, ClientInv;
  }

  /** The file at the path, as a value. */
  ghost function Current(disk: Disk): Outcome
    requires disk.path in disk.inodes
  {
    Value(StampOf(disk, disk.path), disk.inodes[disk.path].bytes)
  }

  /** Where a quiet step takes an unsettled read: on, to the end of a replaced generation, to a fresh
      attempt, or to giving up after the third. */
  ghost predicate Fades(w: World, u: World)
    requires Inv(w) && Inv(u)
  {
    && u.disk == w.disk
    && (|| (u.client.outcome == Pending && !Settled(u) && u.client.attempt == w.client.attempt && Fade(u) < Fade(w)
            && (Late(u) <==> Late(w)) && (Late(w) ==> u.server.before == w.server.before))
        || (Late(w) && u.client.outcome == Value(w.server.before, w.disk.archive[w.server.before]))
        || (!Late(w) && QuietInv(u, u.disk, None) && u.client.outcome == Pending && u.server.Arrived?
            && u.client.offset == 0)
        || (!Late(w) && u.client.outcome == Changed && w.client.attempt >= 2))
  }

  lemma FadeStep(w: World, rawRead: nat)
    requires Inv(w) && w.client.outcome == Pending && !Settled(w)
    ensures var u := ServerStep(w, rawRead); Inv(u) && Fades(w, u)
  {
    ServeKeepsInv(w, rawRead);
    if w.server.Reading? {
      FadeRead(w, rawRead);
    }
    hide Stored, Take;
  }

  lemma FadeRead(w: World, rawRead: nat)
    requires Inv(w) && w.client.outcome == Pending && !Settled(w) && w.server.Reading?
    requires Inv(ServerStep(w, rawRead))
    ensures Fades(w, ServerStep(w, rawRead))
  {
    var u := ServerStep(w, rawRead);
    hide Take;
    if u.client.outcome.Value? {
      assert Snapshot(u.disk, u.client.outcome.stamp, u.client.outcome.bytes);
    }
  }

  ghost predicate Fading(w: World, u: World, n: nat)
    requires Inv(w) && Inv(u)
  {
    && u.client.outcome == Pending && !Settled(u) && u.client.attempt == w.client.attempt
    && n + Fade(u) <= Fade(w) && (Late(u) <==> Late(w)) && (Late(w) ==> u.server.before == w.server.before)
  }

  /** Where serves alone have taken an unsettled read. */
  ghost predicate Faded(w: World, u: World, n: nat)
    requires Inv(w) && Inv(u)
  {
    var size := |w.disk.inodes[w.disk.path].bytes|;
    && u.disk == w.disk
    && (|| Fading(w, u, n)
        || (Late(w) && u.client.outcome == Value(w.server.before, w.disk.archive[w.server.before]))
        || (!Late(w) && QuietInv(u, u.disk, None)
            && (u.client.outcome == Pending ==> n + StepsLeft(u, size) <= Fade(w) + 5 * size + 5))
        || (!Late(w) && u.client.outcome == Changed && w.client.attempt >= 2))
  }

  lemma FadedNext(w: World, u: World, n: nat, rawRead: nat)
    requires Inv(w) && Inv(u) && Faded(w, u, n)
    ensures Enabled(u, Serve(rawRead)) ==>
      Inv(ServerStep(u, rawRead)) && Faded(w, ServerStep(u, rawRead), n + 1)
  {
    if u.client.outcome == Pending {
      if Fading(w, u, n) {
        FadeStep(u, rawRead);
        FadePositive(u);
        FreshSteps(ServerStep(u, rawRead));
      } else {
        QuietStep(u, u.disk, None, rawRead);
        QuietIsInv(ServerStep(u, rawRead), u.disk, None);
      }
    }
    hide Inv, Settled, Late, ServerStep, QuietInv, StepsLeft, Fade;
  }

  lemma FreshSteps(u: World)
    requires u.disk.path in u.disk.inodes
    ensures u.server.Arrived? && u.client.offset == 0 ==>
      var size := |u.disk.inodes[u.disk.path].bytes|; StepsLeft(u, size) == 5 * size + 5
  {}

  lemma QuietIsInv(u: World, disk: Disk, known: Option<Stamp>)
    requires QuietInv(u, disk, known)
    ensures Inv(u) && u.disk == disk
  {}

  lemma {:induction false} RunFades(w: World, serves: seq<Action>)
    requires Inv(w) && w.client.outcome == Pending && !Settled(w) && AllServe(serves)
    ensures Inv(Run(w, serves)) && Faded(w, Run(w, serves), |serves|)
  {
    if serves != [] {
      var prefix := serves[..|serves|-1];
      assert AllServe(prefix);
      RunFades(w, prefix);
      hide Inv, Settled, Faded, ServerStep, Enabled;
      var u := Run(w, prefix);
      FadedNext(w, u, |prefix|, serves[|prefix|].rawRead);
      FinishedStaysFaded(w, u, |prefix|);
      ServeEnabled(u, serves[|prefix|].rawRead);
    }
  }

  lemma FinishedStaysFaded(w: World, u: World, n: nat)
    requires Inv(w) && Inv(u) && Faded(w, u, n)
    ensures u.client.outcome != Pending ==> Faded(w, u, n + 1)
  {
    hide Inv, Settled, Late, QuietInv, StepsLeft, Fade;
  }

  lemma ServeEnabled(u: World, rawRead: nat)
    requires Inv(u)
    ensures Enabled(u, Serve(rawRead)) <==> u.client.outcome == Pending
  {}

  lemma {:induction false} RunConcat(w: World, before: seq<Action>, after: seq<Action>)
    ensures Run(w, before + after) == Run(Run(w, before), after)
  {
    hide Step, Enabled;
    if after == [] {
      assert before + after == before;
    } else {
      var n := |after| - 1;
      RunConcat(w, before, after[..n]);
      assert (before + after)[..|before + after| - 1] == before + after[..n];
    }
  }

  lemma SettledIsQuiet(u: World)
    requires Inv(u) && u.client.outcome == Pending && Settled(u)
    ensures QuietInv(u, u.disk, if u.client.offset == 0 then u.client.known else None)
    ensures StepsLeft(u, |u.disk.inodes[u.disk.path].bytes|) <= 5 * |u.disk.inodes[u.disk.path].bytes| + 5
    ensures !Late(u)
  {
    hide Stored, Take;
  }

  lemma QuietFinishes(u: World, disk: Disk, known: Option<Stamp>)
    requires QuietInv(u, disk, known)
    ensures u.client.outcome == Pending || u.client.outcome == Current(disk)
  {}

  /** What a pending read will return once the writer falls silent: the file now at the path, unless the
      last page of a replaced file is already being served. */
  ghost function Destiny(u: World): Outcome
    requires Inv(u)
  {
    if Late(u) then Value(u.server.before, u.disk.archive[u.server.before]) else Current(u.disk)
  }

  /** When the writer falls silent after fewer than three writes, the read ends: with the file now at
      the path, unless its last page is already being served from a replaced file. */
  lemma ReadsEnd(w: World, before: seq<Action>, serves: seq<Action>)
    requires Initial(w) && AllServe(serves)
    ensures var u, v := Run(w, before), Run(w, before + serves);
      && Inv(u)
      && (Writes(w, before) < 3 && u.client.outcome == Pending && Enough(u, |serves|) ==>
            v.client.outcome == Destiny(u))
  {
    RunPays(w, before);
    RunConcat(w, before, serves);
    hide Inv, Initial, Run, Writes, Settled, Late, Paid, Destiny, Enough;
    if Writes(w, before) < 3 && Run(w, before).client.outcome == Pending && Enough(Run(w, before), |serves|) {
      PendingEnds(Run(w, before), Writes(w, before), serves);
    }
  }

  /** Five steps for every byte, and one more page. */
  ghost predicate Enough(u: World, n: nat)
    requires Inv(u)
  {
    n >= 5 * |u.disk.inodes[u.disk.path].bytes| + PAGE + 10
  }

  lemma PendingEnds(u: World, writes: nat, serves: seq<Action>)
    requires Inv(u) && u.client.outcome == Pending && Paid(u, writes) && writes < 3 && AllServe(serves)
    requires Enough(u, |serves|)
    ensures Run(u, serves).client.outcome == Destiny(u)
  {
    var v := Run(u, serves);
    if Settled(u) {
      var known := if u.client.offset == 0 then u.client.known else None;
      SettledIsQuiet(u);
      QuietRun(u, known, serves);
      QuietEnds(v, u.disk, known);
    } else {
      RunFades(u, serves);
      FadeAtMost(u);
      FadeEnds(u, v, |serves|);
    }
    hide Inv, Run, Settled, Late, QuietInv, StepsLeft, Fade, Faded;
  }

  lemma QuietEnds(v: World, disk: Disk, known: Option<Stamp>)
    requires QuietInv(v, disk, known)
    ensures v.client.outcome == Current(disk) || StepsLeft(v, |disk.inodes[disk.path].bytes|) > 0
  {
    QuietFinishes(v, disk, known);
    hide StepsLeft;
    if v.client.outcome == Pending {
      QuietStepsLeft(v, disk, known);
    }
    hide QuietInv;
  }

  lemma FadeAtMost(u: World)
    ensures Fade(u) <= PAGE + 5
  {}

  lemma FadeEnds(u: World, v: World, n: nat)
    requires Inv(u) && Inv(v) && Faded(u, v, n) && u.client.attempt < 2
    requires Enough(u, n) && Fade(u) <= PAGE + 5
    ensures v.client.outcome == Destiny(u)
  {
    FadePositive(v);
    hide Inv, Settled, Late, QuietInv, StepsLeft, Fade;
    if QuietInv(v, v.disk, None) {
      QuietEnds(v, v.disk, None);
    }
  }
}
