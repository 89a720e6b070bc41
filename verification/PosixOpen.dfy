/**
The POSIX shared-memory backend (src/core/shm_posix.cpp): `shm::open`, `detach` and the moves,
by any number of objects in any number of processes at once. Every system call is a step of its
own, so each interleaving is a run of these steps; what a call returns is part of the step, within
what the kernel allows (exclusive creation finds the name free, opening finds it bound, mapping
returns an address not in use). Other programs may unlink names but do not resize objects.
*/
module PosixOpen {
  import opened Common

  datatype Mode = Create | Open | OpenCreate | Read

  // Where an object is in `open`.
  datatype Stage =
    | Idle                    // never opened, detached, or refused
    | Opening                 // before the first shm_open
    | Creating                // open_create: the name was not there; before the exclusive shm_open
    | Reopening               // open_create: somebody else created it meanwhile
    | Sizing                  // before ftruncate or fstat
    | Mapping                 // before mmap
    | Attached

  datatype Shm = Shm(name: string, mode: Mode, size: nat, stage: Stage, fd: Option<nat>, addr: Option<nat>,
                     created: bool)

  const Blank := Shm("", Open, 0, Idle, None, None, false)

  // A mapped range: the memory object and the length.
  datatype Range = Range(obj: nat, len: nat)

  // The names and the memory objects they are bound to, with, as bookkeeping, which object of
  // this library created each memory object and how often names were created and unlinked.
  datatype Names = Names(
    named: map<string, nat>,          // the memory object now bound to each name
    size: map<nat, nat>,              // the size of each memory object
    maker: map<nat, nat>,
    creations: map<string, nat>, unlinks: map<string, nat>,
    next: nat
  )

  datatype State = State(
    names: Names,
    fds: map<nat, nat>,               // open descriptors
    maps: map<nat, Range>,            // mapped ranges
    objs: map<nat, Shm>,
    fdOwner: map<nat, nat>, mapOwner: map<nat, nat>    // bookkeeping: who closes and unmaps what
  )

  const Empty := State(Names(map[], map[], map[], map[], map[], 0), map[], map[], map[], map[], map[])

  // The answer of shm_open: a descriptor, or a refusal, which may be EEXIST.
  datatype Reply = Got(fd: nat) | Refused(taken: bool)

  datatype Step =
    | New(id: nat)
    | Start(id: nat, name: string, size: nat, mode: Mode)
    | FirstOpen(id: nat, reply: Reply)
    | ExclusiveOpen(id: nat, reply: Reply)
    | SecondOpen(id: nat, reply: Reply)
    | Truncate(id: nat, ok: bool)
    | Stat(id: nat, ok: bool)
    | Map(id: nat, addr: Option<nat>)
    | Detach(id: nat)
    | Move(dst: nat, src: nat)
    | Unlink(name: string)

  predicate InStage(s: State, id: nat, stage: Stage) { id in s.objs && s.objs[id].stage == stage }

  predicate AtRest(s: State, id: nat) { InStage(s, id, Idle) || InStage(s, id, Attached) }

  predicate OpensExisting(s: State, name: string, reply: Reply) {
    reply.Got? ==> name in s.names.named && reply.fd !in s.fds
  }

  predicate CreatesNew(s: State, name: string, reply: Reply) {
    if reply.Got? then name !in s.names.named && reply.fd !in s.fds else reply.taken ==> name in s.names.named
  }

  predicate ValidFd(s: State, o: Shm) { o.fd.Some? && o.fd.value in s.fds && s.fds[o.fd.value] in s.names.size }

  predicate Enabled(s: State, a: Step) {
    match a
    case New(id) => id !in s.objs
    case Start(id, _, _, _) => InStage(s, id, Idle)
    case FirstOpen(id, reply) =>
      && InStage(s, id, Opening)
      && if s.objs[id].mode == Create then CreatesNew(s, s.objs[id].name, reply)
         else OpensExisting(s, s.objs[id].name, reply)
    case ExclusiveOpen(id, reply) => InStage(s, id, Creating) && CreatesNew(s, s.objs[id].name, reply)
    case SecondOpen(id, reply) => InStage(s, id, Reopening) && OpensExisting(s, s.objs[id].name, reply)
    case Truncate(id, _) => InStage(s, id, Sizing) && s.objs[id].created && ValidFd(s, s.objs[id])
    case Stat(id, _) => InStage(s, id, Sizing) && !s.objs[id].created && ValidFd(s, s.objs[id])
    case Map(id, addr) => InStage(s, id, Mapping) && ValidFd(s, s.objs[id]) && (addr.Some? ==> addr.value !in s.maps)
    case Detach(id) => AtRest(s, id)
    case Move(dst, src) => AtRest(s, dst) && AtRest(s, src)
    case Unlink(name) => true
  }

  function Put(s: State, id: nat, o: Shm): State { s.(objs := s.objs[id := o]) }

  function Count(m: map<string, nat>, name: string): nat { if name in m then m[name] else 0 }

  // A new, empty memory object bound to a free name.
  function Bound(k: Names, name: string, id: nat): Names {
    k.(named := k.named[name := k.next], size := k.size[k.next := 0], next := k.next + 1,
       maker := k.maker[k.next := id], creations := k.creations[name := Count(k.creations, name) + 1])
  }

  // shm_open with O_CREAT | O_EXCL finds the name free.
  function CreateNamed(s: State, id: nat, fd: nat): State
    requires id in s.objs
  {
    var o := s.objs[id];
    s.(names := Bound(s.names, o.name, id), fds := s.fds[fd := s.names.next], fdOwner := s.fdOwner[fd := id],
       objs := s.objs[id := o.(fd := Some(fd), created := true, stage := Sizing)])
  }

  function OpenNamed(s: State, id: nat, fd: nat): State
    requires id in s.objs && s.objs[id].name in s.names.named
  {
    var o := s.objs[id];
    s.(fds := s.fds[fd := s.names.named[o.name]], fdOwner := s.fdOwner[fd := id],
       objs := s.objs[id := o.(fd := Some(fd), stage := Sizing)])
  }

  // close_and_fail, and the failures before there is a descriptor.
  function Fail(s: State, id: nat): State
    requires id in s.objs
  {
    var o := s.objs[id];
    match o.fd
    case None => Put(s, id, o.(stage := Idle))
    case Some(fd) => Put(s.(fds := s.fds - {fd}, fdOwner := s.fdOwner - {fd}), id, o.(stage := Idle, fd := None))
  }

  // shm::detach. munmap of the recorded length frees the range if that is its length.
  function Detached(s: State, id: nat): State
    requires id in s.objs
  {
    var o := s.objs[id];
    var s1 := if o.addr.Some? && o.addr.value in s.maps && s.maps[o.addr.value].len == o.size
              then s.(maps := s.maps - {o.addr.value}, mapOwner := s.mapOwner - {o.addr.value})
              else s;
    var s2 := if o.fd.Some? then s1.(fds := s1.fds - {o.fd.value}, fdOwner := s1.fdOwner - {o.fd.value}) else s1;
    Put(s2, id, o.(addr := None, fd := None, created := false, stage := Idle))
  }

  // The fields pass from src to dst, which has been detached; so does the duty to release.
  function Moved(s: State, dst: nat, src: nat): State
    requires dst in s.objs && src in s.objs
  {
    var o := s.objs[src];
    s.(objs := s.objs[dst := o][src := Blank],
       fdOwner := if o.fd.Some? then s.fdOwner[o.fd.value := dst] else s.fdOwner,
       mapOwner := if o.addr.Some? then s.mapOwner[o.addr.value := dst] else s.mapOwner)
  }

  // The steps that create a memory object.
  predicate Creates(s: State, a: Step) {
    && (a.FirstOpen? || a.ExclusiveOpen?) && a.id in s.objs && a.reply.Got?
    && (a.FirstOpen? ==> s.objs[a.id].mode == Create)
  }

  function Apply(s: State, a: Step): (s': State)
    requires Enabled(s, a)
    ensures !a.Unlink? && !a.Truncate? ==>
              s'.names == if Creates(s, a) then Bound(s.names, s.objs[a.id].name, a.id) else s.names
  {
    match a
    case New(id) => Put(s, id, Blank)
    case Start(id, name, size, mode) =>
      var o := s.objs[id].(name := name, size := size, mode := mode, created := false);
      Put(s, id, o.(stage := if mode == Create && size == 0 then Idle else Opening))
    case FirstOpen(id, reply) =>
      (match reply
       case Got(fd) => if s.objs[id].mode == Create then CreateNamed(s, id, fd) else OpenNamed(s, id, fd)
       case Refused(_) =>
         if s.objs[id].mode == OpenCreate && s.objs[id].size != 0 then Put(s, id, s.objs[id].(stage := Creating))
         else Fail(s, id))
    case ExclusiveOpen(id, reply) =>
      (match reply
       case Got(fd) => CreateNamed(s, id, fd)
       case Refused(taken) => if taken then Put(s, id, s.objs[id].(stage := Reopening)) else Fail(s, id))
    case SecondOpen(id, reply) =>
      (match reply
       case Got(fd) => OpenNamed(s, id, fd)
       case Refused(_) => Fail(s, id))
    case Truncate(id, ok) =>
      var o := s.objs[id];
      if !ok then Fail(s, id)
      else Put(s.(names := s.names.(size := s.names.size[s.fds[o.fd.value] := o.size])), id, o.(stage := Mapping))
    case Stat(id, ok) =>
      var o := s.objs[id];
      if !ok then Fail(s, id)
      else
        var existing := s.names.size[s.fds[o.fd.value]];
        if (o.size == 0 && existing == 0) || existing < o.size then Fail(s, id)
        else Put(s, id, o.(stage := Mapping, size := if o.size == 0 then existing else o.size))
    case Map(id, addr) =>
      var o := s.objs[id];
      if addr.None? then Fail(s, id)
      else Put(s.(maps := s.maps[addr.value := Range(s.fds[o.fd.value], o.size)],
                  mapOwner := s.mapOwner[addr.value := id]),
               id, o.(addr := addr, stage := Attached))
    case Detach(id) => Detached(s, id)
    case Move(dst, src) => if dst == src then s else Moved(Detached(s, dst), dst, src)
    case Unlink(name) =>
      if name in s.names.named then
        s.(names := s.names.(named := s.names.named - {name},
                             unlinks := s.names.unlinks[name := Count(s.names.unlinks, name) + 1]))
      else s
  }

  predicate CanRun(s: State, run: seq<Step>)
    decreases |run|
  {
    run == [] || (Enabled(s, run[0]) && CanRun(Apply(s, run[0]), run[1..]))
  }

  function After(s: State, run: seq<Step>): State
    requires CanRun(s, run)
    decreases |run|
  {
    if run == [] then s else After(Apply(s, run[0]), run[1..])
  }

  // ---------------------------------------------------------------------
  // The invariant
  // ---------------------------------------------------------------------

  // The object's descriptor is its own.
  ghost predicate HoldsFd(s: State, id: nat, o: Shm) {
    ValidFd(s, o) && o.fd.value in s.fdOwner && s.fdOwner[o.fd.value] == id
  }

  ghost predicate HoldsMap(s: State, id: nat, o: Shm) {
    && o.addr.Some? && o.addr.value in s.maps && o.addr.value in s.mapOwner && s.mapOwner[o.addr.value] == id
    && o.fd.Some? && o.fd.value in s.fds && s.maps[o.addr.value] == Range(s.fds[o.fd.value], o.size)
  }

  // The memory object is as long as what is, or is about to be, mapped.
  ghost predicate Fits(s: State, o: Shm)
    requires ValidFd(s, o)
  {
    0 < o.size <= s.names.size[s.fds[o.fd.value]]
  }

  ghost predicate ShmOk(s: State, id: nat, o: Shm) {
    match o.stage
    case Idle => o.fd.None? && o.addr.None?
    case Opening => o.fd.None? && o.addr.None? && !o.created && (o.mode == Create ==> o.size != 0)
    case Creating => o.fd.None? && o.addr.None? && !o.created && o.size != 0
    case Reopening => o.fd.None? && o.addr.None? && !o.created && o.size != 0
    case Sizing =>
      && HoldsFd(s, id, o) && o.addr.None?
      && (o.created ==> s.fds[o.fd.value] in s.names.maker && s.names.maker[s.fds[o.fd.value]] == id
                        && s.names.size[s.fds[o.fd.value]] == 0 && o.size != 0)
    case Mapping => HoldsFd(s, id, o) && o.addr.None? && Fits(s, o)
    case Attached => HoldsFd(s, id, o) && HoldsMap(s, id, o) && Fits(s, o)
  }

  // Every descriptor and every mapped range belongs to an object that knows it.
  ghost predicate FdsOwned(fds: map<nat, nat>, owner: map<nat, nat>, objs: map<nat, Shm>) {
    && fds.Keys == owner.Keys
    && forall f :: f in owner ==> owner[f] in objs && objs[owner[f]].fd == Some(f)
  }

  ghost predicate MapsOwned(maps: map<nat, Range>, owner: map<nat, nat>, objs: map<nat, Shm>) {
    && maps.Keys == owner.Keys
    && forall a :: a in owner ==> owner[a] in objs && objs[owner[a]].addr == Some(a)
  }

  // Bound names have an object, and a name has been created once more than unlinked while bound.
  ghost predicate NamesOk(k: Names) {
    && (forall n :: n in k.named ==> k.named[n] in k.size)
    && (forall x :: x in k.size ==> x < k.next)
    && (forall n :: Count(k.creations, n) == Count(k.unlinks, n) + (if n in k.named then 1 else 0))
  }

  ghost predicate AllOk(s: State) {
    forall i {:trigger ShmOk(s, i, s.objs[i])} :: i in s.objs ==> ShmOk(s, i, s.objs[i])
  }

  ghost predicate Inv(s: State) {
    && NamesOk(s.names)
    && FdsOwned(s.fds, s.fdOwner, s.objs)
    && MapsOwned(s.maps, s.mapOwner, s.objs)
    && AllOk(s)
  }

  // ---------------------------------------------------------------------
  // Every step keeps it
  // ---------------------------------------------------------------------

  // What an object holds looks the same in both states.
  ghost predicate Untouched(s: State, s': State, o: Shm) {
    && (o.fd.Some? && ValidFd(s, o) ==>
          var f, x := o.fd.value, s.fds[o.fd.value];
          && f in s'.fds && s'.fds[f] == x && x in s'.names.size && s'.names.size[x] == s.names.size[x]
          && (f in s.fdOwner ==> f in s'.fdOwner && s'.fdOwner[f] == s.fdOwner[f])
          && (x in s.names.maker ==> x in s'.names.maker && s'.names.maker[x] == s.names.maker[x]))
    && (o.addr.Some? && o.addr.value in s.maps && o.addr.value in s.mapOwner ==>
          var a := o.addr.value;
          && a in s'.maps && s'.maps[a] == s.maps[a] && a in s'.mapOwner && s'.mapOwner[a] == s.mapOwner[a])
  }

  lemma Framed(s: State, s': State, id: nat, o: Shm)
    requires ShmOk(s, id, o) && Untouched(s, s', o)
    ensures ShmOk(s', id, o)
  {}

  lemma OwnersSame(s: State, id: nat, o: Shm)
    requires if id in s.objs then o.fd == s.objs[id].fd && o.addr == s.objs[id].addr else o.fd.None? && o.addr.None?
    ensures FdsOwned(s.fds, s.fdOwner, s.objs) ==> FdsOwned(s.fds, s.fdOwner, s.objs[id := o])
    ensures MapsOwned(s.maps, s.mapOwner, s.objs) ==> MapsOwned(s.maps, s.mapOwner, s.objs[id := o])
  {}

  lemma FdsSame(fds: map<nat, nat>, owner: map<nat, nat>, objs: map<nat, Shm>, id: nat, o: Shm)
    requires FdsOwned(fds, owner, objs) && id in objs && o.fd == objs[id].fd
    ensures FdsOwned(fds, owner, objs[id := o])
  {}

  lemma MapsSame(maps: map<nat, Range>, owner: map<nat, nat>, objs: map<nat, Shm>, id: nat, o: Shm)
    requires MapsOwned(maps, owner, objs) && id in objs && o.addr == objs[id].addr
    ensures MapsOwned(maps, owner, objs[id := o])
  {}

  // Only the object's own record changes, and not what it holds.
  lemma PutKeeps(s: State, id: nat, o: Shm)
    requires Inv(s) && ShmOk(s, id, o)
    requires if id in s.objs then o.fd == s.objs[id].fd && o.addr == s.objs[id].addr else o.fd.None? && o.addr.None?
    ensures Inv(Put(s, id, o))
  {
    var s' := Put(s, id, o);
    OwnersSame(s, id, o);
    forall i | i in s'.objs ensures ShmOk(s', i, s'.objs[i]) {
      Framed(s, s', i, s'.objs[i]);
    }
  }

  // The object obtains a descriptor for x.
  function WithFd(s: State, id: nat, fd: nat, x: nat, o: Shm): State {
    s.(fds := s.fds[fd := x], fdOwner := s.fdOwner[fd := id], objs := s.objs[id := o])
  }

  lemma FdTaken(fds: map<nat, nat>, owner: map<nat, nat>, objs: map<nat, Shm>, id: nat, fd: nat, x: nat, o: Shm)
    requires FdsOwned(fds, owner, objs) && id in objs && objs[id].fd.None? && fd !in fds && o.fd == Some(fd)
    ensures FdsOwned(fds[fd := x], owner[fd := id], objs[id := o])
  {}

  lemma WithFdKeeps(s: State, id: nat, fd: nat, x: nat, o: Shm)
    requires Inv(s) && id in s.objs && s.objs[id].fd.None? && s.objs[id].addr.None? && fd !in s.fds && x in s.names.size
    requires o.fd == Some(fd) && o.addr.None? && o.stage == Sizing
    requires o.created ==> x in s.names.maker && s.names.maker[x] == id && s.names.size[x] == 0 && o.size != 0
    ensures Inv(WithFd(s, id, fd, x, o))
  {
    var s' := WithFd(s, id, fd, x, o);
    FdTaken(s.fds, s.fdOwner, s.objs, id, fd, x, o);
    MapsSame(s.maps, s.mapOwner, s.objs, id, o);
    forall i | i in s'.objs ensures ShmOk(s', i, s'.objs[i]) {
      if i != id {
        OtherWithFd(s, id, fd, x, o, i);
      }
    }
  }

  lemma OtherWithFd(s: State, id: nat, fd: nat, x: nat, o: Shm, i: nat)
    requires i in s.objs && ShmOk(s, i, s.objs[i]) && i != id && fd !in s.fds
    ensures ShmOk(WithFd(s, id, fd, x, o), i, s.objs[i])
  {
    Framed(s, WithFd(s, id, fd, x, o), i, s.objs[i]);
  }

  lemma NameBound(k: Names, name: string, id: nat)
    requires NamesOk(k) && name !in k.named
    ensures NamesOk(Bound(k, name, id))
  {}

  function WithObject(s: State, name: string, id: nat): State { s.(names := Bound(s.names, name, id)) }

  lemma WithObjectKeeps(s: State, name: string, id: nat)
    requires Inv(s) && name !in s.names.named
    ensures Inv(WithObject(s, name, id))
  {
    var s' := WithObject(s, name, id);
    NameBound(s.names, name, id);
    forall i | i in s'.objs ensures ShmOk(s', i, s'.objs[i]) {
      OtherWithObject(s, name, id, i);
    }
  }

  lemma OtherWithObject(s: State, name: string, id: nat, i: nat)
    requires i in s.objs && ShmOk(s, i, s.objs[i]) && s.names.next !in s.names.size
    ensures ShmOk(WithObject(s, name, id), i, s.objs[i])
  {
    Framed(s, WithObject(s, name, id), i, s.objs[i]);
  }

  // The object gives its descriptor up.
  function WithoutFd(s: State, id: nat, fd: nat, o: Shm): State {
    s.(fds := s.fds - {fd}, fdOwner := s.fdOwner - {fd}, objs := s.objs[id := o])
  }

  lemma FdGiven(fds: map<nat, nat>, owner: map<nat, nat>, objs: map<nat, Shm>, id: nat, fd: nat, o: Shm)
    requires FdsOwned(fds, owner, objs) && id in objs && objs[id].fd == Some(fd) && o.fd.None?
    ensures FdsOwned(fds - {fd}, owner - {fd}, objs[id := o])
  {}

  lemma WithoutFdKeeps(s: State, id: nat, fd: nat, o: Shm)
    requires Inv(s) && id in s.objs && s.objs[id].fd == Some(fd) && s.objs[id].addr.None? && o.addr.None?
    requires o.fd.None? && o.stage == Idle
    ensures Inv(WithoutFd(s, id, fd, o))
  {
    var s' := WithoutFd(s, id, fd, o);
    FdGiven(s.fds, s.fdOwner, s.objs, id, fd, o);
    MapsSame(s.maps, s.mapOwner, s.objs, id, o);
    assert ShmOk(s, id, s.objs[id]);
    forall i | i in s'.objs ensures ShmOk(s', i, s'.objs[i]) {
      if i != id {
        OtherWithoutFd(s, id, fd, o, i);
      }
    }
  }

  lemma OtherWithoutFd(s: State, id: nat, fd: nat, o: Shm, i: nat)
    requires i in s.objs && ShmOk(s, i, s.objs[i]) && i != id && fd in s.fdOwner && s.fdOwner[fd] == id
    ensures ShmOk(WithoutFd(s, id, fd, o), i, s.objs[i])
  {
    Framed(s, WithoutFd(s, id, fd, o), i, s.objs[i]);
  }

  lemma FailKeeps(s: State, id: nat)
    requires Inv(s) && id in s.objs && s.objs[id].stage != Attached
    ensures Inv(Fail(s, id))
  {
    var o := s.objs[id];
    assert ShmOk(s, id, o);
    match o.fd
    case None => PutKeeps(s, id, o.(stage := Idle));
    case Some(fd) => WithoutFdKeeps(s, id, fd, o.(stage := Idle, fd := None));
  }

  // ftruncate by the creator: the object was empty, so nobody else has measured or mapped it.
  lemma TruncateKeeps(s: State, id: nat)
    requires Inv(s) && Enabled(s, Truncate(id, true))
    ensures Inv(Apply(s, Truncate(id, true)))
  {
    var o := s.objs[id];
    assert ShmOk(s, id, o);
    var x := s.fds[o.fd.value];
    var s' := Apply(s, Truncate(id, true));
    OwnersSame(s, id, o.(stage := Mapping));
    forall i | i in s'.objs ensures ShmOk(s', i, s'.objs[i]) {
      if i != id {
        OtherTruncated(s, s', id, x, i);
      }
    }
  }

  lemma OtherTruncated(s: State, s': State, id: nat, x: nat, i: nat)
    requires i in s.objs && ShmOk(s, i, s.objs[i]) && i != id
    requires x in s.names.size && s.names.size[x] == 0 && x in s.names.maker && s.names.maker[x] == id
    requires s' == s.(names := s.names.(size := s'.names.size), objs := s'.objs)
    requires s'.names.size.Keys == s.names.size.Keys
    requires forall y :: y in s.names.size && y != x ==> s'.names.size[y] == s.names.size[y]
    ensures ShmOk(s', i, s.objs[i])
  {}

  function WithMap(s: State, id: nat, a: nat, range: Range, o: Shm): State {
    s.(maps := s.maps[a := range], mapOwner := s.mapOwner[a := id], objs := s.objs[id := o])
  }

  lemma MapTaken(maps: map<nat, Range>, owner: map<nat, nat>, objs: map<nat, Shm>, id: nat, a: nat, range: Range,
                 o: Shm)
    requires MapsOwned(maps, owner, objs) && id in objs && objs[id].addr.None? && a !in maps && o.addr == Some(a)
    ensures MapsOwned(maps[a := range], owner[a := id], objs[id := o])
  {}

  lemma OtherWithMap(s: State, id: nat, a: nat, range: Range, o: Shm, i: nat)
    requires i in s.objs && ShmOk(s, i, s.objs[i]) && i != id && a !in s.maps
    ensures ShmOk(WithMap(s, id, a, range, o), i, s.objs[i])
  {
    Framed(s, WithMap(s, id, a, range, o), i, s.objs[i]);
  }

  lemma MapKeeps(s: State, id: nat, a: nat)
    requires Inv(s) && Enabled(s, Map(id, Some(a)))
    ensures Inv(Apply(s, Map(id, Some(a))))
  {
    var o := s.objs[id].(addr := Some(a), stage := Attached);
    assert ShmOk(s, id, s.objs[id]);
    var range := Range(s.fds[o.fd.value], o.size);
    var s' := WithMap(s, id, a, range, o);
    assert s' == Apply(s, Map(id, Some(a)));
    MapTaken(s.maps, s.mapOwner, s.objs, id, a, range, o);
    FdsSame(s.fds, s.fdOwner, s.objs, id, o);
    forall i | i in s'.objs ensures ShmOk(s', i, s'.objs[i]) {
      if i != id {
        OtherWithMap(s, id, a, range, o, i);
      }
    }
  }

  function WithoutMap(s: State, id: nat, a: nat, o: Shm): State {
    s.(maps := s.maps - {a}, mapOwner := s.mapOwner - {a}, objs := s.objs[id := o])
  }

  lemma MapGiven(maps: map<nat, Range>, owner: map<nat, nat>, objs: map<nat, Shm>, id: nat, a: nat, o: Shm)
    requires MapsOwned(maps, owner, objs) && id in objs && objs[id].addr == Some(a) && o.addr.None?
    ensures MapsOwned(maps - {a}, owner - {a}, objs[id := o])
  {}

  lemma OtherWithoutMap(s: State, id: nat, a: nat, o: Shm, i: nat)
    requires i in s.objs && ShmOk(s, i, s.objs[i]) && i != id && a in s.mapOwner && s.mapOwner[a] == id
    ensures ShmOk(WithoutMap(s, id, a, o), i, s.objs[i])
  {
    Framed(s, WithoutMap(s, id, a, o), i, s.objs[i]);
  }

  lemma WithoutMapKeeps(s: State, id: nat, a: nat, o: Shm)
    requires Inv(s) && InStage(s, id, Attached) && s.objs[id].addr == Some(a)
    requires o == s.objs[id].(addr := None, stage := Mapping)
    ensures Inv(WithoutMap(s, id, a, o))
  {
    assert ShmOk(s, id, s.objs[id]);
    var s' := WithoutMap(s, id, a, o);
    MapGiven(s.maps, s.mapOwner, s.objs, id, a, o);
    FdsSame(s.fds, s.fdOwner, s.objs, id, o);
    forall i | i in s'.objs ensures ShmOk(s', i, s'.objs[i]) {
      if i != id {
        OtherWithoutMap(s, id, a, o, i);
      }
    }
  }

  // munmap gets the length that was mapped, so detaching releases everything.
  lemma DetachKeeps(s: State, id: nat)
    requires Inv(s) && AtRest(s, id)
    ensures Inv(Detached(s, id))
    ensures Detached(s, id).objs[id].fd.None? && Detached(s, id).objs[id].addr.None?
  {
    var o := s.objs[id];
    assert ShmOk(s, id, o);
    var o' := o.(addr := None, fd := None, created := false, stage := Idle);
    if o.stage == Idle {
      PutKeeps(s, id, o');
    } else {
      var mid := o.(addr := None, stage := Mapping);
      WithoutMapKeeps(s, id, o.addr.value, mid);
      WithoutFdKeeps(WithoutMap(s, id, o.addr.value, mid), id, o.fd.value, o');
      DetachIsBoth(s, id, mid, o');
    }
  }

  lemma DetachIsBoth(s: State, id: nat, mid: Shm, o': Shm)
    requires id in s.objs && o' == s.objs[id].(addr := None, fd := None, created := false, stage := Idle)
    requires ShmOk(s, id, s.objs[id]) && s.objs[id].stage == Attached
    ensures var o := s.objs[id];
            Detached(s, id) == WithoutFd(WithoutMap(s, id, o.addr.value, mid), id, o.fd.value, o')
  {
    assert s.objs[id := mid][id := o'] == s.objs[id := o'];
  }

  lemma OtherMoved(s: State, dst: nat, src: nat, i: nat)
    requires i in s.objs && ShmOk(s, i, s.objs[i]) && i != src && i != dst
    requires dst in s.objs && src in s.objs && ShmOk(s, src, s.objs[src]) && AtRest(s, src)
    ensures ShmOk(Moved(s, dst, src), i, s.objs[i])
  {
    Framed(s, Moved(s, dst, src), i, s.objs[i]);
  }

  lemma MovedFds(fds: map<nat, nat>, owner: map<nat, nat>, objs: map<nat, Shm>, dst: nat, src: nat)
    requires FdsOwned(fds, owner, objs) && dst in objs && src in objs && dst != src && objs[dst].fd.None?
    requires objs[src].fd.Some? ==> objs[src].fd.value in owner
    ensures FdsOwned(fds, if objs[src].fd.Some? then owner[objs[src].fd.value := dst] else owner,
                     objs[dst := objs[src]][src := Blank])
  {}

  lemma MovedMaps(maps: map<nat, Range>, owner: map<nat, nat>, objs: map<nat, Shm>, dst: nat, src: nat)
    requires MapsOwned(maps, owner, objs) && dst in objs && src in objs && dst != src && objs[dst].addr.None?
    requires objs[src].addr.Some? ==> objs[src].addr.value in owner
    ensures MapsOwned(maps, if objs[src].addr.Some? then owner[objs[src].addr.value := dst] else owner,
                      objs[dst := objs[src]][src := Blank])
  {}

  lemma MoveKeeps(s: State, dst: nat, src: nat)
    requires Inv(s) && AtRest(s, src) && dst in s.objs && dst != src
    requires s.objs[dst].fd.None? && s.objs[dst].addr.None?
    ensures Inv(Moved(s, dst, src))
  {
    var s' := Moved(s, dst, src);
    var o := s.objs[src];
    assert ShmOk(s, src, o);
    MovedFds(s.fds, s.fdOwner, s.objs, dst, src);
    MovedMaps(s.maps, s.mapOwner, s.objs, dst, src);
    MovedAll(s, dst, src);
  }

  // dst now holds what src held.
  lemma MovedSelf(s: State, dst: nat, src: nat)
    requires dst in s.objs && src in s.objs && ShmOk(s, src, s.objs[src]) && AtRest(s, src)
    ensures ShmOk(Moved(s, dst, src), dst, s.objs[src])
  {}

  lemma MovedAll(s: State, dst: nat, src: nat)
    requires AllOk(s) && AtRest(s, src) && dst in s.objs && dst != src
    ensures AllOk(Moved(s, dst, src))
  {
    var s' := Moved(s, dst, src);
    forall i | i in s'.objs ensures ShmOk(s', i, s'.objs[i]) {
      MovedOne(s, dst, src, i);
    }
  }

  lemma MovedOne(s: State, dst: nat, src: nat, i: nat)
    requires dst in s.objs && AtRest(s, src) && dst != src && i in s.objs
    requires ShmOk(s, i, s.objs[i]) && ShmOk(s, src, s.objs[src])
    ensures ShmOk(Moved(s, dst, src), i, Moved(s, dst, src).objs[i])
  {
    if i == dst {
      MovedSelf(s, dst, src);
    } else if i != src {
      OtherMoved(s, dst, src, i);
    }
  }

  lemma UnlinkKeeps(s: State, name: string)
    requires Inv(s)
    ensures Inv(Apply(s, Unlink(name)))
  {
    var s' := Apply(s, Unlink(name));
    NameFreed(s.names, name);
    forall i | i in s'.objs ensures ShmOk(s', i, s'.objs[i]) {
      Framed(s, s', i, s.objs[i]);
    }
  }

  lemma NameFreed(k: Names, name: string)
    requires NamesOk(k)
    ensures name in k.named ==>
              NamesOk(k.(named := k.named - {name}, unlinks := k.unlinks[name := Count(k.unlinks, name) + 1]))
  {}

  lemma CreateKeeps(s: State, id: nat, fd: nat)
    requires Inv(s) && id in s.objs && s.objs[id].name !in s.names.named && fd !in s.fds && s.objs[id].size != 0
    requires s.objs[id].fd.None? && s.objs[id].addr.None?
    ensures Inv(CreateNamed(s, id, fd))
  {
    var o := s.objs[id].(fd := Some(fd), created := true, stage := Sizing);
    WithObjectKeeps(s, o.name, id);
    WithFdKeeps(WithObject(s, o.name, id), id, fd, s.names.next, o);
  }

  lemma StartKeeps(s: State, a: Step)
    requires Inv(s) && Enabled(s, a) && a.Start?
    ensures Inv(Apply(s, a))
  {
    assert ShmOk(s, a.id, s.objs[a.id]);
    PutKeeps(s, a.id, Apply(s, a).objs[a.id]);
  }

  lemma ShmOpenKeeps(s: State, a: Step, id: nat, reply: Reply)
    requires Inv(s) && Enabled(s, a) && a in {FirstOpen(id, reply), ExclusiveOpen(id, reply), SecondOpen(id, reply)}
    ensures Inv(Apply(s, a))
  {
    var o := s.objs[id];
    assert ShmOk(s, id, o);
    if reply.Got? {
      if a.ExclusiveOpen? || (a.FirstOpen? && o.mode == Create) {
        CreateKeeps(s, id, reply.fd);
      } else {
        WithFdKeeps(s, id, reply.fd, s.names.named[o.name], o.(fd := Some(reply.fd), stage := Sizing));
      }
    } else if a.FirstOpen? && o.mode == OpenCreate && o.size != 0 {
      PutKeeps(s, id, o.(stage := Creating));
    } else if a.ExclusiveOpen? && reply.taken {
      PutKeeps(s, id, o.(stage := Reopening));
    } else {
      FailKeeps(s, id);
    }
  }

  lemma StatKeeps(s: State, id: nat, ok: bool)
    requires Inv(s) && Enabled(s, Stat(id, ok))
    ensures Inv(Apply(s, Stat(id, ok)))
  {
    var o := s.objs[id];
    assert ShmOk(s, id, o);
    var existing := s.names.size[s.fds[o.fd.value]];
    if !ok || (o.size == 0 && existing == 0) || existing < o.size {
      FailKeeps(s, id);
    } else {
      PutKeeps(s, id, o.(stage := Mapping, size := if o.size == 0 then existing else o.size));
    }
  }

  lemma ReleaseStepKeeps(s: State, a: Step)
    requires Inv(s) && Enabled(s, a) && (a.Detach? || a.Move?)
    ensures Inv(Apply(s, a))
  {
    match a
    case Detach(id) => DetachKeeps(s, id);
    case Move(dst, src) =>
      if dst != src {
        DetachKeeps(s, dst);
        MoveKeeps(Detached(s, dst), dst, src);
      }
  }

  lemma MemoryStepKeeps(s: State, a: Step)
    requires Inv(s) && Enabled(s, a) && (a.Truncate? || a.Map?)
    ensures Inv(Apply(s, a))
  {
    match a
    case Truncate(id, ok) => if ok { TruncateKeeps(s, id); } else { FailKeeps(s, id); }
    case Map(id, addr) => if addr.Some? { MapKeeps(s, id, addr.value); } else { FailKeeps(s, id); }
  }

  lemma StepKeepsInvariant(s: State, a: Step)
    requires Inv(s) && Enabled(s, a)
    ensures Inv(Apply(s, a))
  {
    match a
    case New(id) => PutKeeps(s, id, Blank);
    case Start(id, name, size, mode) => StartKeeps(s, a);
    case FirstOpen(id, reply) => ShmOpenKeeps(s, a, id, reply);
    case ExclusiveOpen(id, reply) => ShmOpenKeeps(s, a, id, reply);
    case SecondOpen(id, reply) => ShmOpenKeeps(s, a, id, reply);
    case Truncate(_, _) => MemoryStepKeeps(s, a);
    case Stat(id, ok) => StatKeeps(s, id, ok);
    case Map(_, _) => MemoryStepKeeps(s, a);
    case Detach(_) => ReleaseStepKeeps(s, a);
    case Move(_, _) => ReleaseStepKeeps(s, a);
    case Unlink(name) => UnlinkKeeps(s, name);
  }

  lemma {:induction false} InvariantHolds(s: State, run: seq<Step>)
    requires Inv(s) && CanRun(s, run)
    ensures Inv(After(s, run))
    decreases |run|
  {
    if run != [] {
      StepKeepsInvariant(s, run[0]);
      InvariantHolds(Apply(s, run[0]), run[1..]);
    }
  }

  // ---------------------------------------------------------------------
  // What every run guarantees
  // ---------------------------------------------------------------------

  // An attached object maps a non-empty range no longer than the memory object, of exactly the
  // size it reports, through a descriptor nobody else holds.
  lemma AttachedFits(run: seq<Step>, id: nat)
    requires CanRun(Empty, run) && InStage(After(Empty, run), id, Attached)
    ensures var s := After(Empty, run);
            var o := s.objs[id];
            && ValidFd(s, o) && o.addr.Some? && o.addr.value in s.maps
            && s.maps[o.addr.value] == Range(s.fds[o.fd.value], o.size)
            && 0 < o.size <= s.names.size[s.fds[o.fd.value]]
            && forall j :: j in s.objs && j != id ==> s.objs[j].fd != o.fd && s.objs[j].addr != o.addr
  {
    InvariantHolds(Empty, run);
    var s := After(Empty, run);
    assert ShmOk(s, id, s.objs[id]);
    forall j | j in s.objs && j != id ensures s.objs[j].fd != s.objs[id].fd && s.objs[j].addr != s.objs[id].addr {
      assert ShmOk(s, j, s.objs[j]);
    }
  }

  // An object whose open failed, or which was detached, holds no descriptor and no mapping; so
  // when no object is attached and no open is under way, none are left at all.
  lemma RestingHoldsNothing(run: seq<Step>)
    requires CanRun(Empty, run)
    ensures var s := After(Empty, run);
            && (forall f :: f in s.fds ==> f in s.fdOwner && !InStage(s, s.fdOwner[f], Idle))
            && (forall a :: a in s.maps ==> a in s.mapOwner && InStage(s, s.mapOwner[a], Attached))
            && ((forall i :: i in s.objs ==> s.objs[i].stage == Idle) ==> s.fds == map[] && s.maps == map[])
  {
    InvariantHolds(Empty, run);
    var s := After(Empty, run);
    forall f | f in s.fds ensures f in s.fdOwner && s.fdOwner[f] in s.objs && s.objs[s.fdOwner[f]].stage != Idle {
      assert f in s.fdOwner;
      assert ShmOk(s, s.fdOwner[f], s.objs[s.fdOwner[f]]);
    }
    forall a | a in s.maps ensures a in s.mapOwner && InStage(s, s.mapOwner[a], Attached) {
      assert a in s.mapOwner;
      assert ShmOk(s, s.mapOwner[a], s.objs[s.mapOwner[a]]);
    }
  }

  lemma UnlinksStep(s: State, a: Step, name: string)
    requires Enabled(s, a) && a != Unlink(name)
    ensures Count(Apply(s, a).names.unlinks, name) == Count(s.names.unlinks, name)
  {
  }

  lemma {:induction false} UnlinksCount(s: State, run: seq<Step>, name: string)
    requires CanRun(s, run) && Unlink(name) !in run
    ensures Count(After(s, run).names.unlinks, name) == Count(s.names.unlinks, name)
    decreases |run|
  {
    if run != [] {
      UnlinksStep(s, run[0], name);
      UnlinksCount(Apply(s, run[0]), run[1..], name);
    }
  }

  // Creation is exclusive: while nobody unlinks a name, at most one open of it sets
  // created_this_open_, whatever the interleaving. In general there is one creation for each
  // unlink that removed the name, and one more while it is bound.
  lemma CreatedOnce(run: seq<Step>, name: string)
    requires CanRun(Empty, run)
    ensures var s := After(Empty, run);
            Count(s.names.creations, name) == Count(s.names.unlinks, name) + (if name in s.names.named then 1 else 0)
    ensures Unlink(name) !in run ==> Count(After(Empty, run).names.creations, name) <= 1
  {
    InvariantHolds(Empty, run);
    if Unlink(name) !in run {
      UnlinksCount(Empty, run, name);
    }
  }

  // The object is about to give memory object x its size.
  ghost predicate Pending(s: State, i: nat, x: nat) {
    && i in s.objs && s.objs[i].stage == Sizing && s.objs[i].created
    && ValidFd(s, s.objs[i]) && s.fds[s.objs[i].fd.value] == x
  }

  // A memory object whose creator could not give it a size.
  ghost predicate Abandoned(s: State, x: nat) {
    x in s.names.size && s.names.size[x] == 0 && forall i :: !Pending(s, i, x)
  }

  // A creator that fails to size its object leaves the name behind, bound to an empty object.
  lemma FailedTruncateAbandons(s: State, id: nat)
    requires Inv(s) && Enabled(s, Truncate(id, false))
    ensures Abandoned(Apply(s, Truncate(id, false)), s.fds[s.objs[id].fd.value])
    ensures Apply(s, Truncate(id, false)).names == s.names
  {
    var o := s.objs[id];
    assert ShmOk(s, id, o);
    var s' := Apply(s, Truncate(id, false));
    forall i ensures !Pending(s', i, s.fds[o.fd.value]) {
      if i in s.objs {
        assert ShmOk(s, i, s.objs[i]);
      }
    }
  }

  lemma SizeStays(s: State, a: Step, x: nat)
    requires Enabled(s, a) && x in s.names.size && s.names.next !in s.names.size
    requires a.Truncate? ==> !Pending(s, a.id, x)
    ensures x in Apply(s, a).names.size && Apply(s, a).names.size[x] == s.names.size[x]
  {
    if a.Truncate? && !a.ok {
      assert Apply(s, a).names == s.names;
    }
  }

  lemma PendingAfterDetach(s: State, id: nat, x: nat, i: nat)
    requires id in s.objs && !Pending(s, i, x)
    ensures !Pending(Detached(s, id), i, x)
  {}

  lemma PendingAfterMove(s: State, dst: nat, src: nat, x: nat, i: nat)
    requires AtRest(s, src) && dst in s.objs && !Pending(s, i, x)
    ensures !Pending(Moved(s, dst, src), i, x)
  {}

  lemma PendingAfterFail(s: State, id: nat, x: nat, i: nat)
    requires id in s.objs && !Pending(s, i, x)
    ensures !Pending(Fail(s, id), i, x)
  {}

  // Nobody but a new creator, of a new object, becomes the one to size an object.
  lemma PendingAfterOpen(s: State, a: Step, id: nat, reply: Reply, x: nat, i: nat)
    requires Enabled(s, a) && a in {FirstOpen(id, reply), ExclusiveOpen(id, reply), SecondOpen(id, reply)}
    requires x in s.names.size && s.names.next !in s.names.size && !Pending(s, i, x) && ShmOk(s, id, s.objs[id])
    requires i in s.objs ==> ShmOk(s, i, s.objs[i])
    ensures !Pending(Apply(s, a), i, x)
  {
    if reply.Refused? {
      PendingAfterFail(s, id, x, i);
    }
  }

  lemma PendingAfterSizing(s: State, a: Step, id: nat, x: nat, i: nat)
    requires Enabled(s, a) && !Pending(s, i, x) && x in s.names.size
    requires a in {Truncate(id, true), Truncate(id, false), Stat(id, true), Stat(id, false)} || (a.Map? && a.id == id)
    ensures !Pending(Apply(s, a), i, x)
  {
    PendingAfterFail(s, id, x, i);
  }

  lemma PendingAfterMoveAssign(s: State, dst: nat, src: nat, x: nat, i: nat)
    requires Enabled(s, Move(dst, src)) && !Pending(s, i, x)
    ensures !Pending(Apply(s, Move(dst, src)), i, x)
  {
    PendingAfterDetach(s, dst, x, i);
    if dst != src {
      PendingAfterMove(Detached(s, dst), dst, src, x, i);
    }
  }

  lemma PendingAfterRest(s: State, a: Step, x: nat, i: nat)
    requires Enabled(s, a) && x in s.names.size && !Pending(s, i, x) && (a.New? || a.Start? || a.Unlink?)
    ensures !Pending(Apply(s, a), i, x)
  {}

  lemma PendingIsNew(s: State, a: Step, x: nat, i: nat)
    requires Enabled(s, a) && x in s.names.size && s.names.next !in s.names.size && !Pending(s, i, x)
    requires i in s.objs ==> ShmOk(s, i, s.objs[i])
    requires a.FirstOpen? || a.ExclusiveOpen? || a.SecondOpen? ==> ShmOk(s, a.id, s.objs[a.id])
    ensures !Pending(Apply(s, a), i, x)
  {
    match a
    case FirstOpen(id, reply) => PendingAfterOpen(s, a, id, reply, x, i);
    case ExclusiveOpen(id, reply) => PendingAfterOpen(s, a, id, reply, x, i);
    case SecondOpen(id, reply) => PendingAfterOpen(s, a, id, reply, x, i);
    case Truncate(id, ok) => PendingAfterSizing(s, a, id, x, i);
    case Stat(id, ok) => PendingAfterSizing(s, a, id, x, i);
    case Map(id, _) => PendingAfterSizing(s, a, id, x, i);
    case Detach(id) => PendingAfterDetach(s, id, x, i);
    case Move(dst, src) => PendingAfterMoveAssign(s, dst, src, x, i);
    case _ => PendingAfterRest(s, a, x, i);
  }

  lemma AbandonedStays(s: State, a: Step, x: nat)
    requires Inv(s) && Enabled(s, a) && Abandoned(s, x)
    ensures Abandoned(Apply(s, a), x)
  {
    SizeStays(s, a, x);
    if a.FirstOpen? || a.ExclusiveOpen? || a.SecondOpen? {
      assert ShmOk(s, a.id, s.objs[a.id]);
    }
    forall i: nat ensures !Pending(Apply(s, a), i, x) {
      if i in s.objs {
        assert ShmOk(s, i, s.objs[i]);
      }
      PendingIsNew(s, a, x, i);
    }
  }

  // From then on no open ever succeeds on it.
  lemma {:induction false} AbandonedIsNeverAttached(s: State, run: seq<Step>, x: nat, id: nat)
    requires Inv(s) && Abandoned(s, x) && CanRun(s, run) && InStage(After(s, run), id, Attached)
    ensures var s' := After(s, run);
            ValidFd(s', s'.objs[id]) && s'.fds[s'.objs[id].fd.value] != x
    decreases |run|
  {
    if run == [] {
      assert ShmOk(s, id, s.objs[id]);
    } else {
      StepKeepsInvariant(s, run[0]);
      AbandonedStays(s, run[0], x);
      AbandonedIsNeverAttached(Apply(s, run[0]), run[1..], x, id);
    }
  }

  // ---------------------------------------------------------------------
  // When a name can still be used
  // ---------------------------------------------------------------------

  // Without an unlink of it, a name stays bound to its object.
  lemma NameStays(s: State, a: Step, n: string)
    requires Enabled(s, a) && a != Unlink(n) && n in s.names.named
    ensures n in Apply(s, a).names.named && Apply(s, a).names.named[n] == s.names.named[n]
  {
    if a.Truncate? && !a.ok {
      assert Apply(s, a).names == s.names;
    }
  }

  lemma {:induction false} NameStaysOverRun(s: State, run: seq<Step>, n: string)
    requires CanRun(s, run) && Unlink(n) !in run && n in s.names.named
    ensures n in After(s, run).names.named && After(s, run).names.named[n] == s.names.named[n]
    decreases |run|
  {
    if run != [] {
      NameStays(s, run[0], n);
      NameStaysOverRun(Apply(s, run[0]), run[1..], n);
    }
  }

  ghost predicate AttachedTo(s: State, id: nat, x: nat) {
    InStage(s, id, Attached) && ValidFd(s, s.objs[id]) && s.fds[s.objs[id].fd.value] == x
  }

  // Some continuation attaches an object to x while the name n stays.
  ghost predicate Reaches(s: State, run: seq<Step>, n: string, id: nat, x: nat) {
    CanRun(s, run) && Unlink(n) !in run && AttachedTo(After(s, run), id, x)
  }

  lemma {:induction false} FreshNumber(used: set<nat>) returns (k: nat)
    ensures k !in used && forall u :: u in used ==> u < k
  {
    if used == {} {
      k := 0;
    } else {
      var u :| u in used;
      var rest := FreshNumber(used - {u});
      k := if u < rest then rest else u + 1;
      assert used == (used - {u}) + {u};
    }
  }

  lemma OneStep(s: State, run: seq<Step>)
    requires run != [] && Enabled(s, run[0])
    ensures CanRun(s, run) <==> CanRun(Apply(s, run[0]), run[1..])
    ensures CanRun(s, run) ==> After(s, run) == After(Apply(s, run[0]), run[1..])
  {}

  lemma {:induction false} RunConcat(s: State, one: seq<Step>, two: seq<Step>)
    requires CanRun(s, one) && CanRun(After(s, one), two)
    ensures CanRun(s, one + two) && After(s, one + two) == After(After(s, one), two)
    decreases |one|
  {
    if one == [] {
      assert one + two == two;
    } else {
      assert (one + two)[0] == one[0] && (one + two)[1..] == one[1..] + two;
      RunConcat(Apply(s, one[0]), one[1..], two);
    }
  }

  // A new object begins to open.
  lemma BeginRun(s: State, id: nat, n: string, size: nat, mode: Mode)
    requires id !in s.objs && (mode == Create ==> size != 0)
    ensures var run := [New(id), Start(id, n, size, mode)];
            && CanRun(s, run)
            && After(s, run) == Put(s, id, Shm(n, mode, size, Opening, None, None, false))
  {
    var run := [New(id), Start(id, n, size, mode)];
    var o := Shm(n, mode, size, Opening, None, None, false);
    var s1 := Put(s, id, Blank);
    assert s1.objs[id := o] == s.objs[id := o];
    OneStep(s, run);
    OneStep(s1, run[1..]);
  }

  // It finds the name bound to x.
  lemma FindRun(s: State, id: nat, fd: nat)
    requires InStage(s, id, Opening) && s.objs[id].mode != Create && s.objs[id].name in s.names.named && fd !in s.fds
    ensures var run := [FirstOpen(id, Got(fd))];
            && CanRun(s, run)
            && After(s, run) == WithFd(s, id, fd, s.names.named[s.objs[id].name],
                                       s.objs[id].(fd := Some(fd), stage := Sizing))
  {
    OneStep(s, [FirstOpen(id, Got(fd))]);
  }

  // It measures and maps the whole of a sized object.
  lemma MeasureRun(s: State, id: nat, addr: nat)
    requires InStage(s, id, Sizing) && ValidFd(s, s.objs[id]) && !s.objs[id].created && s.objs[id].size == 0
    requires s.names.size[s.fds[s.objs[id].fd.value]] != 0 && addr !in s.maps
    ensures var run := [Stat(id, true), Map(id, Some(addr))];
            CanRun(s, run) && AttachedTo(After(s, run), id, s.fds[s.objs[id].fd.value])
  {
    var run := [Stat(id, true), Map(id, Some(addr))];
    var s1 := Put(s, id, s.objs[id].(stage := Mapping, size := s.names.size[s.fds[s.objs[id].fd.value]]));
    OneStep(s, run);
    OneStep(s1, run[1..]);
  }

  lemma FoundRun(s: State, id: nat, fd: nat, n: string)
    requires id !in s.objs && fd !in s.fds && n in s.names.named
    ensures var run := [New(id), Start(id, n, 0, Open), FirstOpen(id, Got(fd))];
            && CanRun(s, run)
            && After(s, run) == WithFd(s, id, fd, s.names.named[n], Shm(n, Open, 0, Sizing, Some(fd), None, false))
  {
    var one, two := [New(id), Start(id, n, 0, Open)], [FirstOpen(id, Got(fd))];
    var o, o' := Shm(n, Open, 0, Opening, None, None, false), Shm(n, Open, 0, Sizing, Some(fd), None, false);
    BeginRun(s, id, n, 0, Open);
    FindRun(Put(s, id, o), id, fd);
    RunConcat(s, one, two);
    assert s.objs[id := o][id := o'] == s.objs[id := o'];
    assert one + two == [New(id), Start(id, n, 0, Open), FirstOpen(id, Got(fd))];
  }

  // A new object that opens the name of a sized memory object attaches to it.
  lemma OpenRun(s: State, n: string, x: nat) returns (run: seq<Step>, id: nat)
    requires n in s.names.named && s.names.named[n] == x && x in s.names.size && s.names.size[x] != 0
    ensures Reaches(s, run, n, id, x)
  {
    id := FreshNumber(s.objs.Keys);
    var fd := FreshNumber(s.fds.Keys);
    var addr := FreshNumber(s.maps.Keys);
    var one, two := [New(id), Start(id, n, 0, Open), FirstOpen(id, Got(fd))], [Stat(id, true), Map(id, Some(addr))];
    FoundRun(s, id, fd, n);
    MeasureRun(After(s, one), id, addr);
    RunConcat(s, one, two);
    run := one + two;
  }

  // The creator that is about to size the object does so.
  lemma SizeRun(s: State, i: nat, x: nat)
    requires Inv(s) && Pending(s, i, x)
    ensures var run := [Truncate(i, true)];
            && CanRun(s, run) && x in After(s, run).names.size && After(s, run).names.size[x] != 0
            && After(s, run).names.named == s.names.named
  {
    assert ShmOk(s, i, s.objs[i]);
    OneStep(s, [Truncate(i, true)]);
  }

  // While a name is not unlinked, some continuation attaches an object to what it is bound to if
  // and only if that is not abandoned.
  lemma UsableUnlessAbandoned(s: State, n: string, x: nat)
    requires Inv(s) && n in s.names.named && s.names.named[n] == x
    ensures (exists run, id :: Reaches(s, run, n, id, x)) <==> !Abandoned(s, x)
  {
    if Abandoned(s, x) {
      forall run, id ensures !Reaches(s, run, n, id, x) {
        if Reaches(s, run, n, id, x) {
          AbandonedIsNeverAttached(s, run, x, id);
        }
      }
    } else if s.names.size[x] != 0 {
      var run, id := OpenRun(s, n, x);
    } else {
      var i :| Pending(s, i, x);
      var one := [Truncate(i, true)];
      SizeRun(s, i, x);
      var two, id := OpenRun(After(s, one), n, x);
      RunConcat(s, one, two);
      assert Reaches(s, one + two, n, id, x);
    }
  }

  // shm_unlink frees the name and leaves every attachment, descriptor and memory object as it was.
  lemma UnlinkOnlyFreesName(s: State, name: string)
    ensures var s' := Apply(s, Unlink(name));
            && s'.objs == s.objs && s'.fds == s.fds && s'.maps == s.maps && s'.names.size == s.names.size
            && s'.names.named == s.names.named - {name}
  {}

  // A creation that finds the name free makes a memory object of its own, of the size asked for.
  ghost predicate CreatesFresh(s: State, run: seq<Step>, n: string, size: nat, id: nat) {
    && CanRun(s, run) && Unlink(n) !in run
    && var s' := After(s, run);
       && AttachedTo(s', id, s.names.next) && s'.names.named == s.names.named[n := s.names.next]
       && s'.names.size == s.names.size[s.names.next := size] && s'.objs[id].size == size && s'.objs[id].created
  }

  lemma CreateStep(s: State, id: nat, fd: nat)
    requires InStage(s, id, Opening) && s.objs[id].mode == Create && s.objs[id].name !in s.names.named && fd !in s.fds
    ensures var run := [FirstOpen(id, Got(fd))];
            CanRun(s, run) && After(s, run) == CreateNamed(s, id, fd)
  {
    OneStep(s, [FirstOpen(id, Got(fd))]);
  }

  // The creator sizes and maps.
  lemma FillRun(s: State, id: nat, addr: nat)
    requires InStage(s, id, Sizing) && ValidFd(s, s.objs[id]) && s.objs[id].created && addr !in s.maps
    ensures var run, x := [Truncate(id, true), Map(id, Some(addr))], s.fds[s.objs[id].fd.value];
            && CanRun(s, run)
            && var s' := After(s, run);
               && AttachedTo(s', id, x) && s'.names.named == s.names.named
               && s'.names.size == s.names.size[x := s.objs[id].size]
               && s'.objs[id].size == s.objs[id].size && s'.objs[id].created
  {
    var run := [Truncate(id, true), Map(id, Some(addr))];
    OneStep(s, run);
    OneStep(Apply(s, run[0]), run[1..]);
  }

  lemma CreateAndFill(s: State, id: nat, fd: nat, addr: nat)
    requires InStage(s, id, Opening) && s.objs[id].mode == Create && s.objs[id].name !in s.names.named && fd !in s.fds
    requires addr !in s.maps
    ensures var run := [FirstOpen(id, Got(fd))] + [Truncate(id, true), Map(id, Some(addr))];
            CreatesFresh(s, run, s.objs[id].name, s.objs[id].size, id)
  {
    var one, two := [FirstOpen(id, Got(fd))], [Truncate(id, true), Map(id, Some(addr))];
    CreateStep(s, id, fd);
    FillRun(CreateNamed(s, id, fd), id, addr);
    RunConcat(s, one, two);
    assert s.names.size[s.names.next := 0][s.names.next := s.objs[id].size] ==
           s.names.size[s.names.next := s.objs[id].size];
  }

  lemma FreeNameCanBeCreated(s: State, n: string, size: nat) returns (run: seq<Step>, id: nat)
    requires n !in s.names.named && size != 0
    ensures CreatesFresh(s, run, n, size, id)
  {
    id := FreshNumber(s.objs.Keys);
    var fd := FreshNumber(s.fds.Keys);
    var addr := FreshNumber(s.maps.Keys);
    var one, two :=
      [New(id), Start(id, n, size, Create)], [FirstOpen(id, Got(fd))] + [Truncate(id, true), Map(id, Some(addr))];
    BeginRun(s, id, n, size, Create);
    CreateAndFill(After(s, one), id, fd, addr);
    RunConcat(s, one, two);
    run := one + two;
  }

  // After an unlink the name can be created again, and the new memory object is not one there was:
  // whoever is still attached to the old one keeps it to itself.
  lemma UnlinkedNameStartsAfresh(s: State, n: string, size: nat)
    requires Inv(s) && size != 0
    ensures s.names.next !in s.names.size
    ensures exists run, id :: CreatesFresh(Apply(s, Unlink(n)), run, n, size, id)
  {
    UnlinkOnlyFreesName(s, n);
    var run, id := FreeNameCanBeCreated(Apply(s, Unlink(n)), n, size);
  }

  // A detach leaves the object idle and gives up its descriptor and its mapping, and nothing else.
  lemma DetachEffect(s: State, id: nat)
    requires Inv(s) && AtRest(s, id)
    ensures Enabled(s, Detach(id))
    ensures var s', o := Apply(s, Detach(id)), s.objs[id];
            && s'.objs == s.objs[id := Shm(o.name, o.mode, o.size, Idle, None, None, false)] && s'.names == s.names
            && s'.fds == (if o.fd.Some? then s.fds - {o.fd.value} else s.fds)
            && s'.maps == (if o.addr.Some? then s.maps - {o.addr.value} else s.maps)
  {
    assert ShmOk(s, id, s.objs[id]);
  }

  // A move hands over the whole record: what dst held is released, src is left blank, and nobody
  // else's descriptor or mapping is touched.
  lemma MoveEffect(s: State, dst: nat, src: nat)
    requires Inv(s) && AtRest(s, dst) && AtRest(s, src)
    ensures Enabled(s, Move(dst, src))
    ensures var s' := Apply(s, Move(dst, src));
            if dst == src then s' == s
            else
              && s'.objs == s.objs[dst := s.objs[src]][src := Blank] && s'.names == s.names
              && s'.fds == (if s.objs[dst].fd.Some? then s.fds - {s.objs[dst].fd.value} else s.fds)
              && s'.maps == (if s.objs[dst].addr.Some? then s.maps - {s.objs[dst].addr.value} else s.maps)
  {
    assert ShmOk(s, dst, s.objs[dst]);
    if dst != src {
      var freed := Detached(s, dst).objs[dst];
      assert s.objs[dst := freed][dst := s.objs[src]][src := Blank] == s.objs[dst := s.objs[src]][src := Blank];
    }
  }

  // The object is opening, or has failed to open, the name n, and has found only x under it.
  ghost predicate Trying(s: State, id: nat, n: string, x: nat) {
    && id in s.objs && s.objs[id].name == n
    && match s.objs[id].stage
       case Idle => true
       case Opening => true
       case Creating => true
       case Reopening => true
       case Sizing => !s.objs[id].created && ValidFd(s, s.objs[id]) && s.fds[s.objs[id].fd.value] == x
       case Mapping => false
       case Attached => false
  }

  // Steps that make the object something else: a move, or an open of another name.
  predicate Redirects(a: Step, id: nat, n: string) {
    (a.Move? && (a.dst == id || a.src == id)) || (a.Start? && a.id == id && a.name != n)
  }

  // What an object holds is not changed by giving back what another holds.
  lemma KeptByFail(s: State, j: nat, id: nat)
    requires j in s.objs && id in s.objs && j != id && ShmOk(s, j, s.objs[j]) && ShmOk(s, id, s.objs[id])
    ensures Fail(s, j).objs[id] == s.objs[id]
    ensures ValidFd(s, s.objs[id]) ==>
              ValidFd(Fail(s, j), s.objs[id]) && Fail(s, j).fds[s.objs[id].fd.value] == s.fds[s.objs[id].fd.value]
  {}

  lemma KeptByDetach(s: State, j: nat, id: nat)
    requires j in s.objs && id in s.objs && j != id && ShmOk(s, j, s.objs[j]) && ShmOk(s, id, s.objs[id])
    ensures Detached(s, j).objs[id] == s.objs[id]
    ensures ValidFd(s, s.objs[id]) ==>
              && ValidFd(Detached(s, j), s.objs[id])
              && Detached(s, j).fds[s.objs[id].fd.value] == s.fds[s.objs[id].fd.value]
  {}

  // Another object's system call.
  lemma TryingWhileOthersOpen(s: State, a: Step, j: nat, reply: Reply, id: nat, n: string, x: nat)
    requires Enabled(s, a) && Trying(s, id, n, x) && ShmOk(s, id, s.objs[id]) && j != id
    requires a in {FirstOpen(j, reply), ExclusiveOpen(j, reply), SecondOpen(j, reply)} && ShmOk(s, j, s.objs[j])
    ensures Trying(Apply(s, a), id, n, x)
  {
    KeptByFail(s, j, id);
  }

  lemma TryingWhileOthersSize(s: State, a: Step, j: nat, id: nat, n: string, x: nat)
    requires Enabled(s, a) && Trying(s, id, n, x) && ShmOk(s, id, s.objs[id]) && j != id
    requires (a.Truncate? || a.Stat? || a.Map?) && a.id == j && ShmOk(s, j, s.objs[j])
    ensures Trying(Apply(s, a), id, n, x)
  {
    KeptByFail(s, j, id);
  }

  lemma TryingWhileOthersMove(s: State, a: Step, id: nat, n: string, x: nat)
    requires Inv(s) && Enabled(s, a) && Trying(s, id, n, x) && !Redirects(a, id, n)
    requires (a.Detach? && a.id != id) || a.Move?
    ensures Trying(Apply(s, a), id, n, x)
  {
    assert ShmOk(s, id, s.objs[id]);
    var j := if a.Detach? then a.id else a.dst;
    assert ShmOk(s, j, s.objs[j]);
    KeptByDetach(s, j, id);
  }

  // Its own system call: the name is bound, so it creates nothing; and what it finds has no size.
  lemma TryingToOpen(s: State, a: Step, id: nat, reply: Reply, n: string, x: nat)
    requires Enabled(s, a) && Trying(s, id, n, x) && ShmOk(s, id, s.objs[id])
    requires n in s.names.named && s.names.named[n] == x && x in s.names.size
    requires a in {FirstOpen(id, reply), ExclusiveOpen(id, reply), SecondOpen(id, reply)}
    ensures Trying(Apply(s, a), id, n, x)
  {
    var o := s.objs[id];
    if reply.Got? {
      assert Apply(s, a) == OpenNamed(s, id, reply.fd);
      TryingFound(s, id, reply.fd, n, x);
    } else if Apply(s, a) == Fail(s, id) {
      TryingFailed(s, id, n, x);
    } else {
      var stage := if a.FirstOpen? then Creating else Reopening;
      assert Apply(s, a) == Put(s, id, o.(stage := stage));
    }
  }

  lemma TryingFound(s: State, id: nat, fd: nat, n: string, x: nat)
    requires id in s.objs && s.objs[id].name == n && !s.objs[id].created
    requires n in s.names.named && s.names.named[n] == x && x in s.names.size
    ensures Trying(OpenNamed(s, id, fd), id, n, x)
  {}

  lemma TryingFailed(s: State, id: nat, n: string, x: nat)
    requires id in s.objs && s.objs[id].name == n
    ensures Trying(Fail(s, id), id, n, x)
  {}

  lemma TryingToSize(s: State, a: Step, id: nat, n: string, x: nat)
    requires Enabled(s, a) && Trying(s, id, n, x) && x in s.names.size && s.names.size[x] == 0
    requires (a.Truncate? || a.Stat? || a.Map?) && a.id == id
    ensures Trying(Apply(s, a), id, n, x)
  {}

  lemma TryingStays(s: State, a: Step, id: nat, n: string, x: nat)
    requires Inv(s) && Enabled(s, a) && Trying(s, id, n, x) && !Redirects(a, id, n)
    requires n in s.names.named && s.names.named[n] == x && Abandoned(s, x)
    ensures Trying(Apply(s, a), id, n, x)
  {
    assert ShmOk(s, id, s.objs[id]);
    if a.FirstOpen? || a.ExclusiveOpen? || a.SecondOpen? || a.Truncate? || a.Stat? || a.Map? {
      if a.id == id {
        if a.Truncate? || a.Stat? || a.Map? {
          TryingToSize(s, a, id, n, x);
        } else {
          TryingToOpen(s, a, id, a.reply, n, x);
        }
      } else {
        assert ShmOk(s, a.id, s.objs[a.id]);
        if a.Truncate? || a.Stat? || a.Map? {
          TryingWhileOthersSize(s, a, a.id, id, n, x);
        } else {
          TryingWhileOthersOpen(s, a, a.id, a.reply, id, n, x);
        }
      }
    } else if (a.Detach? && a.id != id) || a.Move? {
      TryingWhileOthersMove(s, a, id, n, x);
    }
  }

  // A name bound to an abandoned object is useless until it is unlinked: it stays bound to it, and
  // no open of it succeeds, however often and amid whatever else it is tried.
  lemma {:induction false} AbandonedNameFails(s: State, run: seq<Step>, id: nat, n: string, x: nat)
    requires Inv(s) && n in s.names.named && s.names.named[n] == x && Abandoned(s, x)
    requires Trying(s, id, n, x) && CanRun(s, run) && Unlink(n) !in run
    requires forall k :: 0 <= k < |run| ==> !Redirects(run[k], id, n)
    ensures n in After(s, run).names.named && After(s, run).names.named[n] == x
    ensures Trying(After(s, run), id, n, x) && !InStage(After(s, run), id, Attached)
    decreases |run|
  {
    if run != [] {
      StepKeepsInvariant(s, run[0]);
      NameStays(s, run[0], n);
      AbandonedStays(s, run[0], x);
      TryingStays(s, run[0], id, n, x);
      assert forall k :: 0 <= k < |run| - 1 ==> run[1..][k] == run[k + 1];
      AbandonedNameFails(Apply(s, run[0]), run[1..], id, n, x);
    }
  }

  // An open in progress that created the memory object of a name nobody has unlinked is about to
  // size what the name is bound to.
  ghost predicate CreatorsHold(s: State, n: string) {
    forall i, x {:trigger Pending(s, i, x)} :: Pending(s, i, x) && s.objs[i].name == n ==>
      n in s.names.named && s.names.named[n] == x
  }

  lemma PendingNameKept(s: State, a: Step, i: nat, x: nat)
    requires Enabled(s, a) && Pending(s, i, x) && Pending(Apply(s, a), i, x)
    ensures Apply(s, a).objs[i].name == s.objs[i].name
  {
    if a.Detach? || a.Move? {
      PendingIsNotMoved(s, a, i, x);
    } else if a.FirstOpen? || a.ExclusiveOpen? || a.SecondOpen? {
      assert a.id != i;
    }
  }

  lemma PendingIsNotMoved(s: State, a: Step, i: nat, x: nat)
    requires Enabled(s, a) && Pending(s, i, x) && (a.Detach? || a.Move?)
    ensures i in Apply(s, a).objs && Apply(s, a).objs[i] == s.objs[i]
  {}

  // A new memory object is its creator's to size.
  lemma PendingOnNew(s: State, a: Step, i: nat, x: nat)
    requires Inv(s) && Enabled(s, a) && Pending(Apply(s, a), i, x) && x !in s.names.size
    ensures Creates(s, a) && a.id == i && x == s.names.next
  {
    if i in s.objs {
      assert ShmOk(s, i, s.objs[i]);
    }
  }

  lemma CreatorsHoldStays(s: State, a: Step, n: string)
    requires Inv(s) && Enabled(s, a) && a != Unlink(n) && CreatorsHold(s, n)
    ensures CreatorsHold(Apply(s, a), n)
  {
    var s' := Apply(s, a);
    forall i, x | Pending(s', i, x) && s'.objs[i].name == n
      ensures n in s'.names.named && s'.names.named[n] == x
    {
      if x !in s.names.size {
        PendingOnNew(s, a, i, x);
      } else {
        if !Pending(s, i, x) {
          PendingIsNewHere(s, a, x, i);
        }
        PendingNameKept(s, a, i, x);
        NameStays(s, a, n);
      }
    }
  }

  lemma PendingIsNewHere(s: State, a: Step, x: nat, i: nat)
    requires Inv(s) && Enabled(s, a) && x in s.names.size && !Pending(s, i, x)
    ensures !Pending(Apply(s, a), i, x)
  {
    if i in s.objs {
      assert ShmOk(s, i, s.objs[i]);
    }
    if a.FirstOpen? || a.ExclusiveOpen? || a.SecondOpen? {
      assert ShmOk(s, a.id, s.objs[a.id]);
    }
    PendingIsNew(s, a, x, i);
  }

  lemma {:induction false} CreatorsHoldOverRun(s: State, run: seq<Step>, n: string)
    requires Inv(s) && CreatorsHold(s, n) && CanRun(s, run) && Unlink(n) !in run
    ensures CreatorsHold(After(s, run), n)
    decreases |run|
  {
    if run != [] {
      StepKeepsInvariant(s, run[0]);
      CreatorsHoldStays(s, run[0], n);
      CreatorsHoldOverRun(Apply(s, run[0]), run[1..], n);
    }
  }

  // So, whatever came before, a creator that fails to size its object leaves its name, unless it
  // was unlinked, bound to an object that no open will ever attach to.
  lemma FailedCreatorBlocksName(run: seq<Step>, id: nat)
    requires CanRun(Empty, run) && Enabled(After(Empty, run), Truncate(id, false))
    requires Unlink(After(Empty, run).objs[id].name) !in run
    ensures var s := After(Empty, run);
            var n, x, s' := s.objs[id].name, s.fds[s.objs[id].fd.value], Apply(s, Truncate(id, false));
            && Inv(s') && Abandoned(s', x) && n in s'.names.named && s'.names.named[n] == x
            && !exists rest, j :: Reaches(s', rest, n, j, x)
  {
    var s := After(Empty, run);
    var n, x, s' := s.objs[id].name, s.fds[s.objs[id].fd.value], Apply(s, Truncate(id, false));
    InvariantHolds(Empty, run);
    CreatorsHoldOverRun(Empty, run, n);
    assert Pending(s, id, x);
    FailedTruncateAbandons(s, id);
    StepKeepsInvariant(s, Truncate(id, false));
    UsableUnlessAbandoned(s', n, x);
  }

  // One such run: create, and have ftruncate fail.
  lemma FailedCreateRun(n: string, size: nat)
    requires size != 0
    ensures var run := [New(0), Start(0, n, size, Create), FirstOpen(0, Got(0)), Truncate(0, false)];
            && CanRun(Empty, run) && n in After(Empty, run).names.named
            && Abandoned(After(Empty, run), After(Empty, run).names.named[n])
  {
    var one, two := [New(0), Start(0, n, size, Create)], [FirstOpen(0, Got(0))];
    BeginRun(Empty, 0, n, size, Create);
    var s1 := After(Empty, one);
    OneStep(s1, two);
    RunConcat(Empty, one, two);
    var s2 := After(Empty, one + two);
    assert Enabled(s2, Truncate(0, false)) && n in s2.names.named;
    InvariantHolds(Empty, one + two);
    FailedTruncateAbandons(s2, 0);
    OneStep(s2, [Truncate(0, false)]);
    RunConcat(Empty, one + two, [Truncate(0, false)]);
    assert one + two + [Truncate(0, false)] ==
           [New(0), Start(0, n, size, Create), FirstOpen(0, Got(0)), Truncate(0, false)];
  }

  // ---------------------------------------------------------------------
  // One call of shm::open, as the object runs it
  // ---------------------------------------------------------------------

  // What the system calls return, each if it is made; `stat` gives the size of the memory object.
  datatype Calls = Calls(first: Reply, exclusive: Reply, second: Reply, truncate: bool,
                         stat: Option<nat>, mmap: Option<nat>)

  // When the open creates the memory object, and when it gets a descriptor at all.
  predicate CreatesIt(mode: Mode, size: nat, c: Calls) {
    && size != 0
    && if mode == Create then c.first.Got? else mode == OpenCreate && c.first.Refused? && c.exclusive.Got?
  }

  predicate FindsIt(mode: Mode, size: nat, c: Calls) {
    && mode != Create
    && (c.first.Got?
        || (mode == OpenCreate && size != 0 && c.exclusive.Refused? && c.exclusive.taken && c.second.Got?))
  }

  // The calls after shm_open that have to succeed before the mapping.
  predicate SizesIt(mode: Mode, size: nat, c: Calls) {
    || (CreatesIt(mode, size, c) && c.truncate)
    || (FindsIt(mode, size, c) && c.stat.Some? && c.stat.value != 0 && size <= c.stat.value)
  }

  function DescriptorOf(mode: Mode, size: nat, c: Calls): nat
    requires CreatesIt(mode, size, c) || FindsIt(mode, size, c)
  {
    if c.first.Got? then c.first.fd else if c.exclusive.Got? then c.exclusive.fd else c.second.fd
  }

  // What the object is after the call: attached, or without descriptor and mapping.
  function Outcome(name: string, size: nat, mode: Mode, c: Calls): Shm {
    var sized := SizesIt(mode, size, c);
    var ok := sized && c.mmap.Some?;
    Shm(name, mode, if sized && size == 0 then c.stat.value else size, if ok then Attached else Idle,
        if ok then Some(DescriptorOf(mode, size, c)) else None, if ok then c.mmap else None,
        CreatesIt(mode, size, c))
  }

  class Object {
    var name: string
    var size: nat
    var fd: Option<nat>
    var addr: Option<nat>
    var created: bool
    ghost var mapped: nat             // the length mapped at addr, 0 if none
    ghost var taken: nat             // descriptors opened, and closed
    ghost var closed: nat

    // Nothing is held but what the fields name.
    ghost predicate Valid()
      reads this
    {
      && taken == closed + (if fd.Some? then 1 else 0)
      && (addr.Some? ==> fd.Some? && 0 < size && mapped == size)
      && (addr.None? ==> mapped == 0)
    }

    constructor ()
      ensures Valid() && fd.None? && addr.None? && !created
    {
      name, size, fd, addr, created := "", 0, None, None, false;
      mapped, taken, closed := 0, 0, 0;
    }

    method Got(n: nat)
      requires fd.None?
      modifies this`fd, this`taken
      ensures fd == Some(n) && taken == old(taken) + 1
    {
      fd := Some(n);
      taken := taken + 1;
    }

    // close_and_fail
    method CloseAndFail()
      requires Valid() && addr.None?
      modifies this`fd, this`closed
      ensures Valid() && fd.None?
    {
      if fd.Some? {
        fd := None;
        closed := closed + 1;
      }
    }

    // The up to three calls of shm_open.
    method ShmOpen(mode: Mode, c: Calls)
      requires Valid() && fd.None? && addr.None? && !created && (mode == Create ==> size != 0)
      modifies this`fd, this`taken, this`created
      ensures Valid() && fd.Some? == (CreatesIt(mode, size, c) || FindsIt(mode, size, c))
      ensures fd.Some? ==> fd.value == DescriptorOf(mode, size, c)
      ensures created == CreatesIt(mode, size, c)
    {
      if c.first.Got? {
        Got(c.first.fd);
        created := mode == Create;
      } else if mode == OpenCreate && size != 0 {
        if c.exclusive.Got? {
          Got(c.exclusive.fd);
          created := true;
        } else if c.exclusive.taken && c.second.Got? {
          Got(c.second.fd);
        }
      }
    }

    // open on a detached object: exactly when it succeeds and what it then maps, and that a failure
    // leaves neither descriptor nor mapping.
    method Open(name: string, size: nat, mode: Mode, c: Calls) returns (ok: bool)
      requires Valid() && fd.None? && addr.None?
      modifies this
      ensures Valid() && ok == (SizesIt(mode, size, c) && c.mmap.Some?)
      ensures var o := Outcome(name, size, mode, c);
              this.name == o.name && this.size == o.size && fd == o.fd && addr == o.addr && created == o.created
      ensures ok ==> mapped == this.size
      ensures !ok ==> taken - old(taken) == closed - old(closed)
    {
      created := false;
      this.name := name;
      this.size := size;
      if mode == Create && size == 0 {
        return false;
      }
      ShmOpen(mode, c);
      if fd.None? {
        return false;
      }
      if created {
        if !c.truncate {
          CloseAndFail();
          return false;
        }
      } else {
        if c.stat.None? {
          CloseAndFail();
          return false;
        }
        if this.size == 0 {
          this.size := c.stat.value;
        } else if c.stat.value < this.size {
          CloseAndFail();
          return false;
        }
      }
      if this.size == 0 || c.mmap.None? {
        CloseAndFail();
        return false;
      }
      addr := c.mmap;
      mapped := this.size;
      return true;
    }

    // detach unmaps what was mapped and closes the descriptor, whatever came before.
    method Detach()
      requires Valid()
      modifies this
      ensures Valid() && fd.None? && addr.None? && mapped == 0 && taken == closed && !created
      ensures size == old(size) && name == old(name) && taken == old(taken)
    {
      if addr.Some? {
        mapped := mapped - size;
        addr := None;
      }
      if fd.Some? {
        fd := None;
        closed := closed + 1;
      }
      created := false;
    }
  }

  // ---------------------------------------------------------------------
  // The call is a run of the steps above
  // ---------------------------------------------------------------------

  // The kernel can give these answers in state s, if nothing else happens meanwhile.
  ghost predicate Possible(s: State, name: string, mode: Mode, c: Calls) {
    && (if mode == Create then CreatesNew(s, name, c.first) else OpensExisting(s, name, c.first))
    && CreatesNew(s, name, c.exclusive) && OpensExisting(s, name, c.second)
    && (c.stat.Some? && name in s.names.named ==>
          s.names.named[name] in s.names.size && c.stat.value == s.names.size[s.names.named[name]])
    && (c.mmap.Some? ==> c.mmap.value !in s.maps)
  }

  function OpenSteps(id: nat, mode: Mode, size: nat, c: Calls): seq<Step> {
    [FirstOpen(id, c.first)] +
    if c.first.Got? || mode != OpenCreate || size == 0 then []
    else [ExclusiveOpen(id, c.exclusive)] +
         if c.exclusive.Refused? && c.exclusive.taken then [SecondOpen(id, c.second)] else []
  }

  function SizeSteps(id: nat, mode: Mode, size: nat, c: Calls): seq<Step> {
    if CreatesIt(mode, size, c) then [Truncate(id, c.truncate)]
    else if FindsIt(mode, size, c) then [Stat(id, c.stat.Some?)]
    else []
  }

  function MapSteps(id: nat, mode: Mode, size: nat, c: Calls): seq<Step> {
    if SizesIt(mode, size, c) then [Map(id, c.mmap)] else []
  }

  function CallSteps(id: nat, name: string, size: nat, mode: Mode, c: Calls): seq<Step> {
    [Start(id, name, size, mode)] +
    if mode == Create && size == 0 then []
    else OpenSteps(id, mode, size, c) + SizeSteps(id, mode, size, c) + MapSteps(id, mode, size, c)
  }

  // Between shm_open and sizing: the object has its descriptor, or has failed.
  ghost predicate Obtained(s: State, id: nat, o: Shm, c: Calls) {
    && id in s.objs
    && if CreatesIt(o.mode, o.size, c) then
         && s.objs[id] == o.(stage := Sizing, created := true, fd := Some(DescriptorOf(o.mode, o.size, c)))
         && ValidFd(s, s.objs[id])
       else if FindsIt(o.mode, o.size, c) then
         && s.objs[id] == o.(stage := Sizing, fd := Some(DescriptorOf(o.mode, o.size, c)))
         && ValidFd(s, s.objs[id])
         && (c.stat.Some? ==> c.stat.value == s.names.size[s.fds[s.objs[id].fd.value]])
       else s.objs[id] == o.(stage := Idle)
  }

  ghost predicate Begun(s: State, id: nat, o: Shm, c: Calls) {
    && id in s.objs && s.objs[id] == o && o.fd.None? && o.addr.None? && !o.created
    && Possible(s, o.name, o.mode, c) && (o.name in s.names.named ==> s.names.named[o.name] in s.names.size)
  }

  lemma FirstOpenRun(s: State, id: nat, o: Shm, c: Calls)
    requires Begun(s, id, o, c) && o.stage == Opening && (o.mode == Create ==> o.size != 0)
    ensures var s' := Apply(s, FirstOpen(id, c.first));
            && Enabled(s, FirstOpen(id, c.first)) && s'.maps == s.maps
            && if c.first.Refused? && o.mode == OpenCreate && o.size != 0 then Begun(s', id, o.(stage := Creating), c)
               else Obtained(s', id, o, c)
  {}

  lemma ExclusiveOpenRun(s: State, id: nat, o: Shm, c: Calls)
    requires Begun(s, id, o, c) && o.stage == Creating && o.mode == OpenCreate && o.size != 0 && c.first.Refused?
    ensures var s' := Apply(s, ExclusiveOpen(id, c.exclusive));
            && Enabled(s, ExclusiveOpen(id, c.exclusive)) && s'.maps == s.maps
            && if c.exclusive.Refused? && c.exclusive.taken then Begun(s', id, o.(stage := Reopening), c)
               else Obtained(s', id, o, c)
  {}

  lemma SecondOpenRun(s: State, id: nat, o: Shm, c: Calls)
    requires Begun(s, id, o, c) && o.stage == Reopening && o.mode == OpenCreate && o.size != 0
    requires c.first.Refused? && c.exclusive.Refused? && c.exclusive.taken
    ensures var s' := Apply(s, SecondOpen(id, c.second));
            Enabled(s, SecondOpen(id, c.second)) && s'.maps == s.maps && Obtained(s', id, o, c)
  {}

  lemma OpenStepsRun(s: State, id: nat, o: Shm, c: Calls)
    requires Begun(s, id, o, c) && o.stage == Opening && (o.mode == Create ==> o.size != 0)
    ensures var run := OpenSteps(id, o.mode, o.size, c);
            CanRun(s, run) && After(s, run).maps == s.maps && Obtained(After(s, run), id, o, c)
  {
    var run := OpenSteps(id, o.mode, o.size, c);
    FirstOpenRun(s, id, o, c);
    OneStep(s, run);
    if c.first.Refused? && o.mode == OpenCreate && o.size != 0 {
      var s1 := Apply(s, run[0]);
      ExclusiveOpenRun(s1, id, o.(stage := Creating), c);
      OneStep(s1, run[1..]);
      if c.exclusive.Refused? && c.exclusive.taken {
        var s2 := Apply(s1, run[1]);
        SecondOpenRun(s2, id, o.(stage := Reopening), c);
        OneStep(s2, run[2..]);
      }
    }
  }

  // Between sizing and mapping.
  ghost predicate Measured(s: State, id: nat, o: Shm, c: Calls) {
    && id in s.objs
    && if SizesIt(o.mode, o.size, c) then
         && s.objs[id] == o.(stage := Mapping, created := CreatesIt(o.mode, o.size, c),
                             fd := Some(DescriptorOf(o.mode, o.size, c)),
                             size := if o.size == 0 then c.stat.value else o.size)
         && ValidFd(s, s.objs[id])
       else s.objs[id] == o.(stage := Idle, created := CreatesIt(o.mode, o.size, c))
  }

  lemma SizeStepsRun(s: State, id: nat, o: Shm, c: Calls)
    requires Obtained(s, id, o, c) && o.fd.None? && !o.created
    ensures var run := SizeSteps(id, o.mode, o.size, c);
            CanRun(s, run) && After(s, run).maps == s.maps && Measured(After(s, run), id, o, c)
  {
    var run := SizeSteps(id, o.mode, o.size, c);
    if run != [] {
      OneStep(s, run);
    }
  }

  lemma MapStepsRun(s: State, id: nat, o: Shm, c: Calls)
    requires Measured(s, id, o, c) && o.addr.None? && o.fd.None? && (c.mmap.Some? ==> c.mmap.value !in s.maps)
    ensures var run := MapSteps(id, o.mode, o.size, c);
            && CanRun(s, run) && id in After(s, run).objs
            && After(s, run).objs[id] == Outcome(o.name, o.size, o.mode, c)
  {
    var run := MapSteps(id, o.mode, o.size, c);
    if run != [] {
      OneStep(s, run);
    }
  }

  // Run without interference, the call takes the object through these steps, to the record that
  // Object.Open computes.
  lemma CallIsRun(s: State, id: nat, name: string, size: nat, mode: Mode, c: Calls)
    requires Inv(s) && InStage(s, id, Idle) && Possible(s, name, mode, c)
    ensures var run := CallSteps(id, name, size, mode, c);
            && CanRun(s, run) && id in After(s, run).objs
            && After(s, run).objs[id] == Outcome(name, size, mode, c)
  {
    assert ShmOk(s, id, s.objs[id]);
    var start := [Start(id, name, size, mode)];
    OneStep(s, start);
    if mode != Create || size != 0 {
      var o := s.objs[id].(name := name, size := size, mode := mode, created := false, stage := Opening);
      var s1 := Put(s, id, o);
      var opens, sizes, maps := OpenSteps(id, mode, size, c), SizeSteps(id, mode, size, c), MapSteps(id, mode, size, c);
      OpenStepsRun(s1, id, o, c);
      var s2 := After(s1, opens);
      SizeStepsRun(s2, id, o, c);
      MapStepsRun(After(s2, sizes), id, o, c);
      RunConcat(s1, opens, sizes);
      RunConcat(s1, opens + sizes, maps);
      RunConcat(s, start, opens + sizes + maps);
    }
  }
}
