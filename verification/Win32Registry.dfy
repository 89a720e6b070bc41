/**
The Win32 shared-memory backend (src/core/shm_win32.cpp): a process-wide registry of mapped
views, shared by reference count, and a map from section names to a canonical handle. Several
threads may be inside `shm::open` at once; each method below is one critical section or system
call of it, so every interleaving is a sequence of these methods. System call outcomes are
parameters.
*/
module Win32Registry {
  import opened Common

  type Handle = n: nat | 0 < n witness 1
  type Addr = n: nat | 0 < n witness 1

  datatype Access = Read | ReadWrite

  datatype Mode = Create | Open | OpenCreate | ReadOnly

  // view_registry_key: the string form determines these three (see ObjectNames.ViewKeyInjective).
  datatype Key = Key(name: string, access: Access, size: nat)

  // A section object; `life` distinguishes successive sections under one name.
  datatype Section = Section(name: string, life: nat)

  // ---------------------------------------------------------------------
  // The operating system
  // ---------------------------------------------------------------------

  datatype Os = Os(
    handles: map<Handle, Section>,     // this process's open handles
    mapped: map<Addr, Section>,        // this process's mapped views
    named: map<string, nat>,           // the section now living under each name
    foreign: set<nat>,                 // sections kept alive by other processes
    nextLife: nat,
    handlesTaken: nat, handlesGiven: nat,
    viewsTaken: nat, viewsGiven: nat
  )

  const EmptyOs := Os(map[], map[], map[], {}, 0, 0, 0, 0, 0)

  // The sections something still refers to.
  function Lives(os: Os): set<nat> {
    (set h | h in os.handles :: os.handles[h].life) + (set a | a in os.mapped :: os.mapped[a].life) + os.foreign
  }

  // Quantifiers below are used only where a lemma mentions their trigger; elsewhere the invariants are
  // passed on as they are.
  ghost predicate At<R>(r: R) { true }
  ghost predicate AtId(i: int) { true }
  ghost predicate AtKey(k: Key) { true }
  ghost predicate AtName(n: string) { true }

  predicate Living(named: map<string, nat>, s: Section) { s.name in named && named[s.name] == s.life }

  ghost predicate AllLiving<R>(held: map<R, Section>, named: map<string, nat>) {
    forall r: R {:trigger At<R>(r)} :: At<R>(r) && r in held ==> Living(named, held[r])
  }

  ghost predicate OsBase(os: Os) {
    && AllLiving(os.handles, os.named)
    && AllLiving(os.mapped, os.named)
    && (forall n {:trigger AtName(n)} :: AtName(n) && n in os.named ==> os.named[n] < os.nextLife)
    && os.handlesTaken == os.handlesGiven + |os.handles|
    && os.viewsTaken == os.viewsGiven + |os.mapped|
  }

  // A name is taken only as long as something refers to its section.
  ghost predicate NamesLive(os: Os) {
    forall n {:trigger AtName(n)} :: AtName(n) && n in os.named ==> os.named[n] in Lives(os)
  }

  ghost predicate OsInvariant(os: Os) { OsBase(os) && NamesLive(os) }

  // A section dies, and its name becomes free, with its last handle and view.
  function Prune(os: Os): Os {
    os.(named := map n | n in os.named && os.named[n] in Lives(os) :: os.named[n])
  }

  // OpenFileMapping or DuplicateHandle on a living section.
  function TakeHandle(os: Os, h: Handle, s: Section): Os {
    os.(handles := os.handles[h := s], handlesTaken := os.handlesTaken + 1)
  }

  // CreateFileMapping under a free name.
  function CreateSection(os: Os, h: Handle, name: string): Os {
    TakeHandle(os.(named := os.named[name := os.nextLife], nextLife := os.nextLife + 1), h, Section(name, os.nextLife))
  }

  // CloseHandle
  function GiveHandle(os: Os, h: Handle): Os
    requires h in os.handles
  {
    Prune(os.(handles := os.handles - {h}, handlesGiven := os.handlesGiven + 1))
  }

  // MapViewOfFile
  function TakeView(os: Os, a: Addr, s: Section): Os {
    os.(mapped := os.mapped[a := s], viewsTaken := os.viewsTaken + 1)
  }

  // UnmapViewOfFile
  function GiveView(os: Os, a: Addr): Os
    requires a in os.mapped
  {
    Prune(os.(mapped := os.mapped - {a}, viewsGiven := os.viewsGiven + 1))
  }

  lemma SizeOfUpdate<R, S>(m: map<R, S>, r: R, s: S)
    ensures r !in m ==> |m[r := s]| == |m| + 1
    ensures r in m ==> |m - {r}| == |m| - 1
  {
    if r in m {
      assert (m - {r}).Keys == m.Keys - {r};
    } else {
      assert m[r := s].Keys == m.Keys + {r};
    }
  }

  lemma TakeHandleKeeps(os: Os, h: Handle, s: Section)
    requires OsInvariant(os) && h !in os.handles && Living(os.named, s)
    ensures OsInvariant(TakeHandle(os, h, s))
  {
    SizeOfUpdate(os.handles, h, s);
    MoreHandles(os, h, s);
  }

  lemma MoreHandles(os: Os, h: Handle, s: Section)
    requires h !in os.handles
    ensures Lives(os) <= Lives(TakeHandle(os, h, s)) && s.life in Lives(TakeHandle(os, h, s))
  {
    var handles := TakeHandle(os, h, s).handles;
    forall x | x in os.handles ensures os.handles[x].life in Lives(TakeHandle(os, h, s)) {
      assert x in handles && handles[x] == os.handles[x];
    }
    assert h in handles && handles[h] == s;
  }

  lemma CreateSectionKeeps(os: Os, h: Handle, name: string)
    requires OsInvariant(os) && h !in os.handles && name !in os.named
    ensures OsInvariant(CreateSection(os, h, name))
  {
    var os1, s := os.(named := os.named[name := os.nextLife], nextLife := os.nextLife + 1), Section(name, os.nextLife);
    assert OsBase(os1);
    SizeOfUpdate(os.handles, h, s);
    MoreHandles(os1, h, s);
    assert Lives(os1) == Lives(os);
  }

  lemma TakeViewKeeps(os: Os, a: Addr, s: Section)
    requires OsInvariant(os) && a !in os.mapped && Living(os.named, s)
    ensures OsInvariant(TakeView(os, a, s))
  {
    SizeOfUpdate(os.mapped, a, s);
    MoreViews(os, a, s);
  }

  lemma MoreViews(os: Os, a: Addr, s: Section)
    requires a !in os.mapped
    ensures Lives(os) <= Lives(TakeView(os, a, s))
  {
    var mapped := TakeView(os, a, s).mapped;
    forall x | x in os.mapped ensures os.mapped[x].life in Lives(TakeView(os, a, s)) {
      assert x in mapped && mapped[x] == os.mapped[x];
    }
  }

  // Pruning keeps every section something still refers to.
  lemma PruneKeeps(os: Os)
    requires OsBase(os)
    ensures OsInvariant(Prune(os))
  {
    var named := Prune(os).named;
    forall h | h in os.handles
      ensures Living(named, os.handles[h])
    {
      assert At<Handle>(h);
      assert os.handles[h].life in Lives(os);
    }
    forall a | a in os.mapped
      ensures Living(named, os.mapped[a])
    {
      assert At<Addr>(a);
      assert os.mapped[a].life in Lives(os);
    }
  }

  lemma GiveHandleKeeps(os: Os, h: Handle)
    requires OsInvariant(os) && h in os.handles
    ensures OsInvariant(GiveHandle(os, h))
  {
    SizeOfUpdate(os.handles, h, os.handles[h]);
    PruneKeeps(os.(handles := os.handles - {h}, handlesGiven := os.handlesGiven + 1));
  }

  lemma GiveViewKeeps(os: Os, a: Addr)
    requires OsInvariant(os) && a in os.mapped
    ensures OsInvariant(GiveView(os, a))
  {
    SizeOfUpdate(os.mapped, a, os.mapped[a]);
    PruneKeeps(os.(mapped := os.mapped - {a}, viewsGiven := os.viewsGiven + 1));
  }

  // ---------------------------------------------------------------------
  // Who releases what
  // ---------------------------------------------------------------------

  // A resource belongs to a registry entry or to an open still in progress.
  datatype Owner = ByView(k: Key) | ByOpen(id: nat)

  // The resources of one kind (handles, or mapped views), each with one owner that knows it,
  // and of a section of the owner's name. Nothing is held that nobody is going to release, and
  // nothing is known that is not held.
  ghost predicate Owned<R>(held: map<R, Section>, owner: map<R, Owner>,
                           ofView: map<Key, R>, ofOpen: map<nat, R>, section: map<nat, Section>) {
    && held.Keys == owner.Keys
    && (forall r: R {:trigger At<R>(r)} :: At<R>(r) && r in owner && owner[r].ByView? ==>
          owner[r].k in ofView && ofView[owner[r].k] == r && held[r].name == owner[r].k.name)
    && (forall r: R {:trigger At<R>(r)} :: At<R>(r) && r in owner && owner[r].ByOpen? ==>
          owner[r].id in ofOpen && ofOpen[owner[r].id] == r
          && owner[r].id in section && held[r] == section[owner[r].id])
    && (forall k {:trigger AtKey(k)} :: AtKey(k) && k in ofView ==> ofView[k] in owner && owner[ofView[k]] == ByView(k))
    && (forall i {:trigger AtId(i)} :: AtId(i) && i in ofOpen ==> ofOpen[i] in owner && owner[ofOpen[i]] == ByOpen(i))
  }

  lemma OpenTakes<R>(held: map<R, Section>, owner: map<R, Owner>, ofView: map<Key, R>, ofOpen: map<nat, R>,
                     section: map<nat, Section>, r: R, i: nat, s: Section)
    requires Owned(held, owner, ofView, ofOpen, section)
    requires r !in held && i !in ofOpen && (i in section ==> section[i] == s)
    ensures Owned(held[r := s], owner[r := ByOpen(i)], ofView, ofOpen[i := r], section[i := s])
  {}

  lemma OpenGives<R>(held: map<R, Section>, owner: map<R, Owner>, ofView: map<Key, R>, ofOpen: map<nat, R>,
                     section: map<nat, Section>, i: nat)
    requires Owned(held, owner, ofView, ofOpen, section) && i in ofOpen
    ensures Owned(held - {ofOpen[i]}, owner - {ofOpen[i]}, ofView, ofOpen - {i}, section - {i})
  {
    assert AtId(i);
  }

  lemma OpenForgets<R>(held: map<R, Section>, owner: map<R, Owner>, ofView: map<Key, R>, ofOpen: map<nat, R>,
                       section: map<nat, Section>, i: nat, s: Section)
    requires Owned(held, owner, ofView, ofOpen, section) && i !in ofOpen
    ensures Owned(held, owner, ofView, ofOpen, section - {i})
    ensures Owned(held, owner, ofView, ofOpen, section[i := s])
  {}

  lemma OpenBecomesView<R>(held: map<R, Section>, owner: map<R, Owner>, ofView: map<Key, R>, ofOpen: map<nat, R>,
                           section: map<nat, Section>, i: nat, k: Key)
    requires Owned(held, owner, ofView, ofOpen, section)
    requires i in ofOpen && i in section && k !in ofView && section[i].name == k.name
    ensures Owned(held, owner[ofOpen[i] := ByView(k)], ofView[k := ofOpen[i]], ofOpen - {i}, section - {i})
  {
    assert AtId(i);
  }

  lemma ViewGives<R>(held: map<R, Section>, owner: map<R, Owner>, ofView: map<Key, R>, ofOpen: map<nat, R>,
                     section: map<nat, Section>, k: Key)
    requires Owned(held, owner, ofView, ofOpen, section) && k in ofView
    ensures Owned(held - {ofView[k]}, owner - {ofView[k]}, ofView - {k}, ofOpen, section)
  {
    assert AtKey(k);
  }

  // ---------------------------------------------------------------------
  // shm objects and the registry
  // ---------------------------------------------------------------------

  datatype Shm = Shm(
    addr: nat, size: nat, mapping: nat,
    created: bool,                       // created_this_open_
    key: Option<Key>,                    // win32_view_key_
    name: string
  )

  const Detached := Shm(0, 0, 0, false, None, "")

  // An open() in progress: it holds a handle and, later, a mapped view.
  datatype Opening = Opening(section: Section, access: Access, size: nat, created: bool, register: bool,
                             h: Handle, view: Option<Addr>)

  // ProcessViewEntry
  datatype View = View(addr: Addr, handle: Handle, refs: int)

  type Objects = map<nat, Shm>
  type Views = map<Key, View>
  type Opens = map<nat, Opening>

  ghost function HandleOfView(views: Views): map<Key, Handle> { map k | k in views :: views[k].handle }

  ghost function AddrOfView(views: Views): map<Key, Addr> { map k | k in views :: views[k].addr }

  ghost function HandleOfOpen(opens: Opens): map<nat, Handle> { map i | i in opens :: opens[i].h }

  ghost function AddrOfOpen(opens: Opens): map<nat, Addr> {
    map i | i in opens && opens[i].view.Some? :: opens[i].view.value
  }

  ghost function SectionOfOpen(opens: Opens): map<nat, Section> { map i | i in opens :: opens[i].section }

  ghost predicate HandlesOwned(os: Os, hOwner: map<Handle, Owner>, views: Views, opens: Opens) {
    Owned(os.handles, hOwner, HandleOfView(views), HandleOfOpen(opens), SectionOfOpen(opens))
  }

  ghost predicate ViewsOwned(os: Os, aOwner: map<Addr, Owner>, views: Views, opens: Opens) {
    Owned(os.mapped, aOwner, AddrOfView(views), AddrOfOpen(opens), SectionOfOpen(opens))
  }

  ghost function Holders(objs: Objects, k: Key): set<nat> {
    set i | i in objs && objs[i].key == Some(k)
  }

  // Each entry's reference count is the number of attached objects holding its key.
  ghost predicate CountsMatch(objs: Objects, views: Views) {
    forall k {:trigger AtKey(k)} :: AtKey(k) && k in views ==> views[k].refs == |Holders(objs, k)| && 1 <= views[k].refs
  }

  // An attached object's entry exists and its address is the entry's; any other object has no
  // address.
  ghost predicate ObjectMatches(o: Shm, views: Views) {
    match o.key
    case Some(k) =>
      && k in views && o.addr == views[k].addr && o.name == k.name && o.size == k.size
      && (o.mapping == 0 || o.mapping == views[k].handle)
    case None => o.addr == 0 && o.mapping == 0
  }

  ghost predicate ObjectsMatch(objs: Objects, views: Views) {
    forall i {:trigger AtId(i)} :: AtId(i) && i in objs ==> ObjectMatches(objs[i], views)
  }

  // Only detached objects are being opened.
  ghost predicate OpensDetached(objs: Objects, opens: Opens) {
    forall i {:trigger AtId(i)} :: AtId(i) && i in opens ==> i in objs && objs[i].key.None?
  }

  // Each canonical handle is the section handle of a live view with the same name.
  ghost predicate CanonicalOk(canonical: map<string, Handle>, hOwner: map<Handle, Owner>) {
    forall n {:trigger AtName(n)} :: AtName(n) && n in canonical ==>
      canonical[n] in hOwner && hOwner[canonical[n]].ByView? && hOwner[canonical[n]].k.name == n
  }

  ghost predicate Distinct(s: seq<nat>) { forall i, j :: 0 <= i < j < |s| ==> s[i] != s[j] }

  // Each section life is announced as created at most once: an open that created a section has
  // not announced it yet, and is the only one that may.
  ghost predicate CreatedOnce(opens: Opens, nextLife: nat, creator: map<nat, nat>, reported: seq<nat>) {
    && Distinct(reported)
    && (forall g {:trigger AtId(g)} :: AtId(g) && g in reported ==> g < nextLife)
    && (forall i {:trigger AtId(i)} :: AtId(i) && i in opens && opens[i].created ==>
          var g := opens[i].section.life;
          g < nextLife && g !in reported && g in creator && creator[g] == i)
  }

  // ---------------------------------------------------------------------
  // Reference counts
  // ---------------------------------------------------------------------

  lemma HolderAdded(objs: Objects, i: nat, o: Shm, k: Key)
    requires (i in objs ==> objs[i].key.None?) && o.key == Some(k)
    ensures Holders(objs[i := o], k) == Holders(objs, k) + {i} && i !in Holders(objs, k)
    ensures forall k' :: k' != k ==> Holders(objs[i := o], k') == Holders(objs, k')
  {}

  lemma HolderRemoved(objs: Objects, i: nat, o: Shm, k: Key)
    requires i in objs && objs[i].key == Some(k) && o.key.None?
    ensures Holders(objs[i := o], k) == Holders(objs, k) - {i} && i in Holders(objs, k)
    ensures forall k' :: k' != k ==> Holders(objs[i := o], k') == Holders(objs, k')
  {}

  lemma HolderSame(objs: Objects, i: nat, o: Shm)
    requires (i in objs ==> objs[i].key.None?) && o.key.None?
    ensures forall k :: Holders(objs[i := o], k) == Holders(objs, k)
  {}

  // An object attaches to an entry, old or new.
  lemma AttachCounts(objs: Objects, views: Views, i: nat, o: Shm, k: Key, v: View)
    requires CountsMatch(objs, views) && ObjectsMatch(objs, views)
    requires i in objs && objs[i].key.None? && o.key == Some(k)
    requires if k in views then v == views[k].(refs := views[k].refs + 1) else v.refs == 1
    requires ObjectMatches(o, views[k := v])
    ensures CountsMatch(objs[i := o], views[k := v])
    ensures ObjectsMatch(objs[i := o], views[k := v])
  {
    HolderAdded(objs, i, o, k);
    if k !in views {
      NoHolders(objs, views, k);
    }
  }

  lemma NoHolders(objs: Objects, views: Views, k: Key)
    requires ObjectsMatch(objs, views) && k !in views
    ensures Holders(objs, k) == {}
  {
    forall j | j in objs
      ensures objs[j].key != Some(k)
    {
      assert AtId(j);
    }
  }

  // An object lets go of an entry that others still hold.
  lemma DetachCounts(objs: Objects, views: Views, i: nat, o: Shm, k: Key)
    requires CountsMatch(objs, views) && ObjectsMatch(objs, views)
    requires i in objs && objs[i].key == Some(k) && o.key.None? && o.addr == 0 && o.mapping == 0
    ensures k in views
    ensures 2 <= views[k].refs ==>
              var views' := views[k := views[k].(refs := views[k].refs - 1)];
              CountsMatch(objs[i := o], views') && ObjectsMatch(objs[i := o], views')
    ensures views[k].refs == 1 ==>
              CountsMatch(objs[i := o], views - {k}) && ObjectsMatch(objs[i := o], views - {k})
  {
    assert AtId(i) && AtKey(k);
    HolderRemoved(objs, i, o, k);
    if views[k].refs == 1 {
      LastHolder(objs, i, k);
      var objs' := objs[i := o];
      forall j | j in objs'
        ensures ObjectMatches(objs'[j], views - {k})
      {
        assert AtId(j);
        assert j == i || ObjectMatches(objs[j], views);
        assert j == i || j !in Holders(objs, k);
      }
    }
  }

  lemma LastHolder(objs: Objects, i: nat, k: Key)
    requires i in Holders(objs, k) && |Holders(objs, k)| == 1
    ensures Holders(objs, k) == {i}
  {
    assert |Holders(objs, k) - {i}| == 0;
  }

  // ---------------------------------------------------------------------
  // Ownership through each step
  // ---------------------------------------------------------------------

  lemma ViewMaps(views: Views, k: Key, v: View)
    ensures HandleOfView(views[k := v]) == HandleOfView(views)[k := v.handle]
    ensures AddrOfView(views[k := v]) == AddrOfView(views)[k := v.addr]
    ensures HandleOfView(views - {k}) == HandleOfView(views) - {k}
    ensures AddrOfView(views - {k}) == AddrOfView(views) - {k}
  {}

  lemma OpenPut(opens: Opens, i: nat, op: Opening)
    ensures HandleOfOpen(opens[i := op]) == HandleOfOpen(opens)[i := op.h]
    ensures SectionOfOpen(opens[i := op]) == SectionOfOpen(opens)[i := op.section]
    ensures AddrOfOpen(opens[i := op]) ==
            if op.view.Some? then AddrOfOpen(opens)[i := op.view.value] else AddrOfOpen(opens) - {i}
  {}

  lemma OpenRemoved(opens: Opens, i: nat)
    ensures HandleOfOpen(opens - {i}) == HandleOfOpen(opens) - {i}
    ensures SectionOfOpen(opens - {i}) == SectionOfOpen(opens) - {i}
    ensures AddrOfOpen(opens - {i}) == AddrOfOpen(opens) - {i}
  {}

  lemma OpenMaps(opens: Opens, i: nat, op: Opening)
    ensures HandleOfOpen(opens[i := op]) == HandleOfOpen(opens)[i := op.h]
    ensures SectionOfOpen(opens[i := op]) == SectionOfOpen(opens)[i := op.section]
    ensures AddrOfOpen(opens[i := op]) ==
            if op.view.Some? then AddrOfOpen(opens)[i := op.view.value] else AddrOfOpen(opens) - {i}
    ensures HandleOfOpen(opens - {i}) == HandleOfOpen(opens) - {i}
    ensures SectionOfOpen(opens - {i}) == SectionOfOpen(opens) - {i}
    ensures AddrOfOpen(opens - {i}) == AddrOfOpen(opens) - {i}
  {
    OpenPut(opens, i, op);
    OpenRemoved(opens, i);
  }

  lemma Absent<R>(m: map<nat, R>, i: nat)
    requires i !in m
    ensures m - {i} == m
  {}

  // An open obtains its handle.
  lemma HandleTaken(os: Os, os': Os, hOwner: map<Handle, Owner>, aOwner: map<Addr, Owner>,
                    views: Views, opens: Opens, i: nat, op: Opening)
    requires HandlesOwned(os, hOwner, views, opens) && ViewsOwned(os, aOwner, views, opens)
    requires i !in opens && op.h !in os.handles && op.view.None?
    requires os'.handles == os.handles[op.h := op.section] && os'.mapped == os.mapped
    ensures HandlesOwned(os', hOwner[op.h := ByOpen(i)], views, opens[i := op])
    ensures ViewsOwned(os', aOwner, views, opens[i := op])
  {
    OpenMaps(opens, i, op);
    Absent(AddrOfOpen(opens), i);
    OpenTakes(os.handles, hOwner, HandleOfView(views), HandleOfOpen(opens), SectionOfOpen(opens), op.h, i, op.section);
    OpenForgets(os.mapped, aOwner, AddrOfView(views), AddrOfOpen(opens), SectionOfOpen(opens), i, op.section);
  }

  // An open maps its view.
  lemma ViewTaken(os: Os, os': Os, hOwner: map<Handle, Owner>, aOwner: map<Addr, Owner>,
                  views: Views, opens: Opens, i: nat, op: Opening)
    requires HandlesOwned(os, hOwner, views, opens) && ViewsOwned(os, aOwner, views, opens)
    requires i in opens && opens[i].view.None? && op.view.Some? && op.view.value !in os.mapped
    requires op.section == opens[i].section && op.h == opens[i].h
    requires os'.handles == os.handles && os'.mapped == os.mapped[op.view.value := op.section]
    ensures HandlesOwned(os', hOwner, views, opens[i := op])
    ensures ViewsOwned(os', aOwner[op.view.value := ByOpen(i)], views, opens[i := op])
  {
    OpenMaps(opens, i, op);
    assert HandleOfOpen(opens)[i := op.h] == HandleOfOpen(opens);
    assert SectionOfOpen(opens)[i := op.section] == SectionOfOpen(opens);
    OpenTakes(os.mapped, aOwner, AddrOfView(views), AddrOfOpen(opens), SectionOfOpen(opens),
              op.view.value, i, op.section);
  }

  lemma HeldByOpen(os: Os, hOwner: map<Handle, Owner>, aOwner: map<Addr, Owner>, views: Views, opens: Opens, i: nat)
    requires HandlesOwned(os, hOwner, views, opens) && ViewsOwned(os, aOwner, views, opens) && i in opens
    ensures opens[i].h in hOwner && hOwner[opens[i].h] == ByOpen(i)
    ensures opens[i].h in os.handles && os.handles[opens[i].h] == opens[i].section
    ensures opens[i].view.Some? ==> opens[i].view.value in os.mapped && opens[i].view.value in aOwner
  {
    assert AtId(i) && At<Handle>(opens[i].h);
    assert HandleOfOpen(opens)[i] == opens[i].h && SectionOfOpen(opens)[i] == opens[i].section;
    if opens[i].view.Some? {
      assert AddrOfOpen(opens)[i] == opens[i].view.value;
    }
  }

  // An open gives up: its handle is closed, and its view unmapped if it has one.
  lemma OpenEnds(os: Os, os': Os, hOwner: map<Handle, Owner>, aOwner: map<Addr, Owner>,
                 views: Views, opens: Opens, i: nat)
    requires HandlesOwned(os, hOwner, views, opens) && ViewsOwned(os, aOwner, views, opens) && i in opens
    requires os'.handles == os.handles - {opens[i].h}
    requires os'.mapped == if opens[i].view.Some? then os.mapped - {opens[i].view.value} else os.mapped
    ensures opens[i].h in hOwner && hOwner[opens[i].h] == ByOpen(i)
    ensures opens[i].h in os.handles && os.handles[opens[i].h] == opens[i].section
    ensures opens[i].view.Some? ==> opens[i].view.value in os.mapped
    ensures HandlesOwned(os', hOwner - {opens[i].h}, views, opens - {i})
    ensures ViewsOwned(os', if opens[i].view.Some? then aOwner - {opens[i].view.value} else aOwner, views, opens - {i})
  {
    OpenMaps(opens, i, opens[i]);
    assert AtId(i) && At<Handle>(opens[i].h);
    assert HandleOfOpen(opens)[i] == opens[i].h && SectionOfOpen(opens)[i] == opens[i].section;
    OpenGives(os.handles, hOwner, HandleOfView(views), HandleOfOpen(opens), SectionOfOpen(opens), i);
    if opens[i].view.Some? {
      assert AddrOfOpen(opens)[i] == opens[i].view.value;
      OpenGives(os.mapped, aOwner, AddrOfView(views), AddrOfOpen(opens), SectionOfOpen(opens), i);
    } else {
      Absent(AddrOfOpen(opens), i);
      OpenForgets(os.mapped, aOwner, AddrOfView(views), AddrOfOpen(opens), SectionOfOpen(opens), i, opens[i].section);
    }
  }

  // An open turns what it holds into a registry entry.
  lemma OpenRegisters(os: Os, hOwner: map<Handle, Owner>, aOwner: map<Addr, Owner>,
                      views: Views, opens: Opens, i: nat, k: Key, v: View)
    requires HandlesOwned(os, hOwner, views, opens) && ViewsOwned(os, aOwner, views, opens)
    requires i in opens && opens[i].view == Some(v.addr) && opens[i].h == v.handle
    requires k !in views && opens[i].section.name == k.name
    ensures v.handle in hOwner && hOwner[v.handle] == ByOpen(i)
    ensures HandlesOwned(os, hOwner[v.handle := ByView(k)], views[k := v], opens - {i})
    ensures ViewsOwned(os, aOwner[v.addr := ByView(k)], views[k := v], opens - {i})
  {
    OpenMaps(opens, i, opens[i]);
    ViewMaps(views, k, v);
    assert AtId(i);
    assert HandleOfOpen(opens)[i] == v.handle && AddrOfOpen(opens)[i] == v.addr;
    assert SectionOfOpen(opens)[i] == opens[i].section;
    OpenBecomesView(os.handles, hOwner, HandleOfView(views), HandleOfOpen(opens), SectionOfOpen(opens), i, k);
    OpenBecomesView(os.mapped, aOwner, AddrOfView(views), AddrOfOpen(opens), SectionOfOpen(opens), i, k);
  }

  // Only the reference count of an entry changes.
  lemma Recounted(os: Os, hOwner: map<Handle, Owner>, aOwner: map<Addr, Owner>,
                  views: Views, opens: Opens, k: Key, refs: int)
    requires HandlesOwned(os, hOwner, views, opens) && ViewsOwned(os, aOwner, views, opens) && k in views
    ensures HandlesOwned(os, hOwner, views[k := views[k].(refs := refs)], opens)
    ensures ViewsOwned(os, aOwner, views[k := views[k].(refs := refs)], opens)
    ensures views[k].handle in hOwner && hOwner[views[k].handle] == ByView(k)
  {
    ViewMaps(views, k, views[k].(refs := refs));
    assert HandleOfView(views)[k := views[k].handle] == HandleOfView(views);
    assert AddrOfView(views)[k := views[k].addr] == AddrOfView(views);
    assert AtKey(k);
    assert HandleOfView(views)[k] == views[k].handle;
  }

  // The last holder leaves: the entry goes, with its view and its handle.
  lemma EntryEnds(os: Os, os': Os, hOwner: map<Handle, Owner>, aOwner: map<Addr, Owner>,
                  views: Views, opens: Opens, k: Key)
    requires HandlesOwned(os, hOwner, views, opens) && ViewsOwned(os, aOwner, views, opens) && k in views
    requires os'.handles == os.handles - {views[k].handle} && os'.mapped == os.mapped - {views[k].addr}
    ensures views[k].handle in os.handles && views[k].addr in os.mapped
    ensures views[k].handle in hOwner && hOwner[views[k].handle] == ByView(k)
    ensures HandlesOwned(os', hOwner - {views[k].handle}, views - {k}, opens)
    ensures ViewsOwned(os', aOwner - {views[k].addr}, views - {k}, opens)
  {
    ViewMaps(views, k, views[k]);
    assert AtKey(k);
    assert HandleOfView(views)[k] == views[k].handle && AddrOfView(views)[k] == views[k].addr;
    ViewGives(os.handles, hOwner, HandleOfView(views), HandleOfOpen(opens), SectionOfOpen(opens), k);
    ViewGives(os.mapped, aOwner, AddrOfView(views), AddrOfOpen(opens), SectionOfOpen(opens), k);
  }

  // What the registry knows of an entry, read off the ownership of its handle and view.
  lemma EntryIsMapped(os: Os, hOwner: map<Handle, Owner>, aOwner: map<Addr, Owner>, views: Views, opens: Opens, k: Key)
    requires HandlesOwned(os, hOwner, views, opens) && ViewsOwned(os, aOwner, views, opens) && k in views
    ensures views[k].handle in os.handles && os.handles[views[k].handle].name == k.name
    ensures views[k].addr in os.mapped && os.mapped[views[k].addr].name == k.name
  {
    assert AtKey(k) && At<Handle>(views[k].handle) && At<Addr>(views[k].addr);
    assert HandleOfView(views)[k] == views[k].handle && AddrOfView(views)[k] == views[k].addr;
  }

  // The registry gains a canonical handle if the name has none.
  function WithCanonical(canonical: map<string, Handle>, register: bool, name: string, h: Handle): map<string, Handle> {
    if register && name !in canonical then canonical[name := h] else canonical
  }

  // detach drops the canonical handle if it is the one about to be closed.
  function WithoutCanonical(canonical: map<string, Handle>, name: string, h: Handle): map<string, Handle> {
    if name in canonical && canonical[name] == h then canonical - {name} else canonical
  }

  lemma CanonicalFresh(canonical: map<string, Handle>, hOwner: map<Handle, Owner>, h: Handle, owner: Owner)
    requires CanonicalOk(canonical, hOwner) && h !in hOwner
    ensures CanonicalOk(canonical, hOwner[h := owner])
  {}

  // The handle of an open in progress is never canonical.
  lemma CanonicalKeeps(canonical: map<string, Handle>, hOwner: map<Handle, Owner>, h: Handle, owner: Owner)
    requires CanonicalOk(canonical, hOwner) && h in hOwner && hOwner[h].ByOpen?
    ensures CanonicalOk(canonical, hOwner - {h}) && CanonicalOk(canonical, hOwner[h := owner])
  {}

  lemma CanonicalAdded(canonical: map<string, Handle>, hOwner: map<Handle, Owner>, register: bool, k: Key, h: Handle)
    requires CanonicalOk(canonical, hOwner) && h in hOwner && hOwner[h] == ByView(k)
    ensures CanonicalOk(WithCanonical(canonical, register, k.name, h), hOwner)
  {}

  lemma CanonicalErased(canonical: map<string, Handle>, hOwner: map<Handle, Owner>, k: Key, h: Handle)
    requires CanonicalOk(canonical, hOwner) && h in hOwner && hOwner[h] == ByView(k)
    ensures CanonicalOk(WithoutCanonical(canonical, k.name, h), hOwner - {h})
  {}

  lemma CreatedBegins(opens: Opens, nextLife: nat, creator: map<nat, nat>, reported: seq<nat>, i: nat, op: Opening)
    requires CreatedOnce(opens, nextLife, creator, reported) && i !in opens
    ensures !op.created ==> CreatedOnce(opens[i := op], nextLife, creator, reported)
    ensures op.created && op.section.life == nextLife ==>
              CreatedOnce(opens[i := op], nextLife + 1, creator[nextLife := i], reported)
  {
    assert AtId(nextLife);
  }

  lemma CreatedEnds(opens: Opens, nextLife: nat, creator: map<nat, nat>, reported: seq<nat>, i: nat)
    requires CreatedOnce(opens, nextLife, creator, reported) && i in opens
    ensures CreatedOnce(opens - {i}, nextLife, creator, reported)
    ensures opens[i].created ==> opens[i].section.life !in reported
    ensures opens[i].created ==> CreatedOnce(opens - {i}, nextLife, creator, reported + [opens[i].section.life])
  {
    assert AtId(i);
  }

  lemma CreatedContinues(opens: Opens, nextLife: nat, creator: map<nat, nat>, reported: seq<nat>, i: nat, op: Opening)
    requires CreatedOnce(opens, nextLife, creator, reported) && i in opens
    requires op.section == opens[i].section && op.created == opens[i].created
    ensures CreatedOnce(opens[i := op], nextLife, creator, reported)
  {}

  lemma DetachedBegins(objs: Objects, opens: Opens, i: nat, op: Opening)
    requires OpensDetached(objs, opens) && i in objs && objs[i].key.None?
    ensures OpensDetached(objs, opens[i := op])
  {}

  lemma DetachedEnds(objs: Objects, opens: Opens, i: nat, o: Shm)
    requires OpensDetached(objs, opens)
    ensures OpensDetached(objs, opens - {i}) && OpensDetached(objs[i := o], opens - {i})
    ensures o.key.None? ==> OpensDetached(objs[i := o], opens)
  {}

  lemma NotedObject(objs: Objects, views: Views, i: nat, o: Shm)
    requires CountsMatch(objs, views) && ObjectsMatch(objs, views)
    requires (i in objs ==> objs[i].key.None?) && o.key.None? && o.addr == 0 && o.mapping == 0
    ensures CountsMatch(objs[i := o], views) && ObjectsMatch(objs[i := o], views)
  {
    HolderSame(objs, i, o);
  }

  // The program's state: the two global maps, the live objects, the opens in progress and, as
  // environment, the operating system.
  datatype Registry = Registry(
    os: Os,
    views: Views,                          // g_process_views
    canonical: map<string, Handle>,        // g_canonical_shm_handle
    objs: Objects,
    opens: Opens
  )

  // Bookkeeping for the proof: who releases what, which open created which section, and which
  // sections a successful open has announced as created.
  datatype Book = Book(
    hOwner: map<Handle, Owner>, aOwner: map<Addr, Owner>, creator: map<nat, nat>, reported: seq<nat>
  )

  ghost predicate Ok(g: Registry, b: Book) {
    && OsInvariant(g.os)
    && CountsMatch(g.objs, g.views)
    && ObjectsMatch(g.objs, g.views)
    && OpensDetached(g.objs, g.opens)
    && HandlesOwned(g.os, b.hOwner, g.views, g.opens)
    && ViewsOwned(g.os, b.aOwner, g.views, g.opens)
    && CanonicalOk(g.canonical, b.hOwner)
    && CreatedOnce(g.opens, g.os.nextLife, b.creator, b.reported)
  }

  lemma NoteKeeps(g: Registry, b: Book, g': Registry, id: nat, o: Shm)
    requires Ok(g, b) && (id in g.objs ==> g.objs[id].key.None?)
    requires o.key.None? && o.addr == 0 && o.mapping == 0 && g' == g.(objs := g.objs[id := o])
    ensures Ok(g', b)
  {
    NotedObject(g.objs, g.views, id, o);
    DetachedEnds(g.objs, g.opens, id, o);
  }

  lemma HoldKeeps(g: Registry, b: Book, g': Registry, b': Book, id: nat, op: Opening)
    requires Ok(g, b) && id in g.objs && g.objs[id].key.None? && id !in g.opens
    requires op.h !in g.os.handles && op.view.None?
    requires if op.created
             then op.section == Section(op.section.name, g.os.nextLife) && op.section.name !in g.os.named
                  && g'.os == CreateSection(g.os, op.h, op.section.name)
             else Living(g.os.named, op.section) && g'.os == TakeHandle(g.os, op.h, op.section)
    requires g' == g.(os := g'.os, opens := g.opens[id := op])
    requires b' == b.(hOwner := b.hOwner[op.h := ByOpen(id)],
                      creator := if op.created then b.creator[g.os.nextLife := id] else b.creator)
    ensures Ok(g', b')
  {
    CreatedBegins(g.opens, g.os.nextLife, b.creator, b.reported, id, op);
    DetachedBegins(g.objs, g.opens, id, op);
    if op.created {
      CreateSectionKeeps(g.os, op.h, op.section.name);
    } else {
      TakeHandleKeeps(g.os, op.h, op.section);
    }
    HandleTaken(g.os, g'.os, b.hOwner, b.aOwner, g.views, g.opens, id, op);
    CanonicalFresh(g.canonical, b.hOwner, op.h, ByOpen(id));
  }

  // Closing an open's handle after unmapping its view, if any.
  function Released(os: Os, op: Opening): Os
    requires op.h in os.handles && (op.view.Some? ==> op.view.value in os.mapped)
  {
    GiveHandle(if op.view.Some? then GiveView(os, op.view.value) else os, op.h)
  }

  lemma ReleaseKeeps(g: Registry, b: Book, g': Registry, b': Book, id: nat)
    requires Ok(g, b) && id in g.opens
    requires var op := g.opens[id];
             && op.h in g.os.handles && (op.view.Some? ==> op.view.value in g.os.mapped)
             && g' == g.(os := Released(g.os, op), opens := g.opens - {id})
             && b' == b.(hOwner := b.hOwner - {op.h},
                         aOwner := if op.view.Some? then b.aOwner - {op.view.value} else b.aOwner)
    ensures Ok(g', b')
  {
    var op := g.opens[id];
    if op.view.Some? {
      GiveViewKeeps(g.os, op.view.value);
      GiveHandleKeeps(GiveView(g.os, op.view.value), op.h);
    } else {
      GiveHandleKeeps(g.os, op.h);
    }
    OpenEnds(g.os, g'.os, b.hOwner, b.aOwner, g.views, g.opens, id);
    CanonicalKeeps(g.canonical, b.hOwner, op.h, ByOpen(id));
    CreatedEnds(g.opens, g.os.nextLife, b.creator, b.reported, id);
    DetachedEnds(g.objs, g.opens, id, Detached);
  }

  // Announcing a section that was created: it had not been announced.
  ghost function Announce(b: Book, op: Opening): Book {
    if op.created then b.(reported := b.reported + [op.section.life]) else b
  }

  // Sharing an existing entry, once the open has released what it held.
  lemma ShareKeeps(g: Registry, b: Book, g': Registry, id: nat, k: Key, v: View, o: Shm, register: bool)
    requires Ok(g, b) && id in g.objs && g.objs[id].key.None? && id !in g.opens && k in g.views
    requires v == g.views[k].(refs := g.views[k].refs + 1)
    requires o.key == Some(k) && o.addr == v.addr && o.name == k.name && o.size == k.size && o.mapping == 0
    requires g' == g.(views := g.views[k := v], objs := g.objs[id := o],
                      canonical := WithCanonical(g.canonical, register, k.name, v.handle))
    ensures Ok(g', b)
  {
    AttachCounts(g.objs, g.views, id, o, k, v);
    Recounted(g.os, b.hOwner, b.aOwner, g.views, g.opens, k, v.refs);
    CanonicalAdded(g.canonical, b.hOwner, register, k, v.handle);
    DetachedEnds(g.objs, g.opens, id, o);
    Absent(g.opens, id);
  }

  lemma MapKeeps(g: Registry, b: Book, g': Registry, b': Book, id: nat, op: Opening)
    requires Ok(g, b) && id in g.opens && g.opens[id].view.None?
    requires op.view.Some? && op.view.value !in g.os.mapped
    requires op.section == g.opens[id].section && op.h == g.opens[id].h && op.created == g.opens[id].created
    requires g' == g.(os := TakeView(g.os, op.view.value, op.section), opens := g.opens[id := op])
    requires b' == b.(aOwner := b.aOwner[op.view.value := ByOpen(id)])
    ensures Ok(g', b')
  {
    HeldByOpen(g.os, b.hOwner, b.aOwner, g.views, g.opens, id);
    assert Living(g.os.named, op.section) by { assert At<Handle>(op.h); }
    TakeViewKeeps(g.os, op.view.value, op.section);
    ViewTaken(g.os, g'.os, b.hOwner, b.aOwner, g.views, g.opens, id, op);
    CreatedContinues(g.opens, g.os.nextLife, b.creator, b.reported, id, op);
    assert id in g.objs && g.objs[id].key.None? by { assert AtId(id); }
    DetachedBegins(g.objs, g.opens, id, op);
  }

  lemma RegisterKeeps(g: Registry, b: Book, g': Registry, b': Book, id: nat, k: Key, v: View, o: Shm)
    requires Ok(g, b) && id in g.opens && k !in g.views
    requires g.opens[id].view == Some(v.addr) && g.opens[id].h == v.handle && v.refs == 1
    requires g.opens[id].section.name == k.name
    requires o.key == Some(k) && o.addr == v.addr && o.name == k.name && o.size == k.size && o.mapping == v.handle
    requires g' == g.(views := g.views[k := v], objs := g.objs[id := o], opens := g.opens - {id},
                      canonical := WithCanonical(g.canonical, g.opens[id].register, k.name, v.handle))
    requires b' == b.(hOwner := b.hOwner[v.handle := ByView(k)], aOwner := b.aOwner[v.addr := ByView(k)])
    ensures Ok(g', b')
  {
    assert id in g.objs && g.objs[id].key.None? by { assert AtId(id); }
    AttachCounts(g.objs, g.views, id, o, k, v);
    OpenRegisters(g.os, b.hOwner, b.aOwner, g.views, g.opens, id, k, v);
    CanonicalKeeps(g.canonical, b.hOwner, v.handle, ByView(k));
    CanonicalAdded(g.canonical, b'.hOwner, g.opens[id].register, k, v.handle);
    CreatedEnds(g.opens, g.os.nextLife, b.creator, b.reported, id);
    DetachedEnds(g.objs, g.opens, id, o);
  }

  // An open in progress that created a section has not been announced; once it is over it can be.
  lemma AnnounceKeeps(g: Registry, b: Book, g': Registry, b': Book, id: nat)
    requires Ok(g, b) && id in g.opens && Ok(g', b')
    requires g'.opens == g.opens - {id} && g'.os.nextLife == g.os.nextLife
    requires b'.creator == b.creator && b'.reported == b.reported
    ensures Ok(g', Announce(b', g.opens[id]))
    ensures g.opens[id].created ==> g.opens[id].section.life !in b.reported
  {
    CreatedEnds(g.opens, g.os.nextLife, b.creator, b.reported, id);
  }

  lemma PutTwice<K, V>(m: map<K, V>, k: K, v: V, w: V)
    ensures m[k := v][k := w] == m[k := w]
  {}

  lemma PutThenRemove<K, V>(m: map<K, V>, k: K, v: V)
    ensures m[k := v] - {k} == m - {k}
    ensures k !in m ==> m - {k} == m
  {}

  predicate OpenHolds(g: Registry, id: nat) {
    && id in g.opens && g.opens[id].h in g.os.handles
    && (g.opens[id].view.Some? ==> g.opens[id].view.value in g.os.mapped)
  }

  // The open's own handle and view go; the object attaches to the entry, whose count rises.
  function Shared(g: Registry, id: nat, k: Key): Registry
    requires OpenHolds(g, id) && k in g.views
  {
    var op := g.opens[id];
    var v := g.views[k].(refs := g.views[k].refs + 1);
    g.(os := Released(g.os, op),
       opens := g.opens - {id},
       views := g.views[k := v],
       objs := g.objs[id := Shm(v.addr, k.size, 0, op.created, Some(k), k.name)],
       canonical := WithCanonical(g.canonical, op.register, k.name, v.handle))
  }

  // An entry of the name of an open in progress maps the section that the open has obtained: both
  // are of the one section living under the name.
  lemma SharedSection(g: Registry, b: Book, id: nat, k: Key)
    requires Ok(g, b) && OpenHolds(g, id) && k in g.views && k.name == g.opens[id].section.name
    ensures var a, mapped := g.views[k].addr, Shared(g, id, k).os.mapped;
            a in mapped && mapped[a] == g.opens[id].section
  {
    var op := g.opens[id];
    assert AtKey(k) && AtId(id);
    assert AddrOfView(g.views)[k] == g.views[k].addr && HandleOfOpen(g.opens)[id] == op.h;
    assert At<Addr>(g.views[k].addr) && At<Handle>(op.h);
    assert SectionOfOpen(g.opens)[id] == op.section;
    if op.view.Some? {
      assert AddrOfOpen(g.opens)[id] == op.view.value;
    }
  }

  lemma MappedSection(g: Registry, b: Book, id: nat)
    requires Ok(g, b) && OpenHolds(g, id) && g.opens[id].view.Some?
    ensures g.os.mapped[g.opens[id].view.value] == g.opens[id].section
  {
    assert AtId(id);
    assert AddrOfOpen(g.opens)[id] == g.opens[id].view.value && SectionOfOpen(g.opens)[id] == g.opens[id].section;
    assert At<Addr>(g.opens[id].view.value);
  }

  lemma ReleaseThenShare(g: Registry, b: Book, g': Registry, b': Book, id: nat, k: Key)
    requires Ok(g, b) && OpenHolds(g, id) && k in g.views && g' == Shared(g, id, k)
    requires var op := g.opens[id];
             b' == b.(hOwner := b.hOwner - {op.h},
                      aOwner := if op.view.Some? then b.aOwner - {op.view.value} else b.aOwner)
    ensures Ok(g', Announce(b', g.opens[id]))
    ensures g.opens[id].created ==> g.opens[id].section.life !in b.reported
  {
    var mid := g.(os := g'.os, opens := g'.opens);
    ReleaseKeeps(g, b, mid, b', id);
    assert id in g.objs && g.objs[id].key.None? by { assert AtId(id); }
    ShareKeeps(mid, b', g', id, k, g'.views[k], g'.objs[id], g.opens[id].register);
    AnnounceKeeps(g, b, g', b', id);
  }

  // The open's handle and view become the entry's.
  function Registered(g: Registry, id: nat): Registry
    requires OpenHolds(g, id) && g.opens[id].view.Some?
  {
    var op := g.opens[id];
    var k := RequestedKey(op);
    g.(opens := g.opens - {id},
       views := g.views[k := View(op.view.value, op.h, 1)],
       objs := g.objs[id := Shm(op.view.value, k.size, op.h, op.created, Some(k), k.name)],
       canonical := WithCanonical(g.canonical, op.register, k.name, op.h))
  }

  lemma LeaveSharedKeeps(g: Registry, b: Book, g': Registry, id: nat, k: Key)
    requires Ok(g, b) && id in g.objs && g.objs[id].key == Some(k) && k in g.views && 2 <= g.views[k].refs
    requires g' == g.(objs := g.objs[id := Detached],
                      views := g.views[k := g.views[k].(refs := g.views[k].refs - 1)])
    ensures Ok(g', b)
  {
    var v := g.views[k].(refs := g.views[k].refs - 1);
    DetachCounts(g.objs, g.views, id, Detached, k);
    assert g'.views == g.views[k := v];
    Recounted(g.os, b.hOwner, b.aOwner, g.views, g.opens, k, v.refs);
    DetachedEnds(g.objs, g.opens, id, Detached);
  }

  lemma LeaveLastKeeps(g: Registry, b: Book, g': Registry, b': Book, id: nat, k: Key, v: View)
    requires Ok(g, b) && id in g.objs && g.objs[id].key == Some(k) && k in g.views && g.views[k] == v && v.refs == 1
    requires v.addr in g.os.mapped && v.handle in g.os.handles
    requires g' == g.(objs := g.objs[id := Detached], views := g.views - {k},
                      canonical := WithoutCanonical(g.canonical, k.name, v.handle),
                      os := GiveHandle(GiveView(g.os, v.addr), v.handle))
    requires b' == b.(hOwner := b.hOwner - {v.handle}, aOwner := b.aOwner - {v.addr})
    ensures Ok(g', b')
  {
    DetachCounts(g.objs, g.views, id, Detached, k);
    GiveViewKeeps(g.os, v.addr);
    GiveHandleKeeps(GiveView(g.os, v.addr), v.handle);
    EntryEnds(g.os, g'.os, b.hOwner, b.aOwner, g.views, g.opens, k);
    CanonicalErased(g.canonical, b.hOwner, k, v.handle);
    DetachedEnds(g.objs, g.opens, id, Detached);
  }

  lemma MoveKeeps(g: Registry, b: Book, g': Registry, dst: nat, src: nat)
    requires Ok(g, b) && dst in g.objs && src in g.objs && dst != src && g.objs[dst].key.None?
    requires dst !in g.opens && src !in g.opens
    requires g' == g.(objs := g.objs[dst := g.objs[src]][src := Detached])
    ensures Ok(g', b)
  {
    var o := g.objs[src];
    var mid := g.objs[src := Detached];
    assert g'.objs == mid[dst := o];
    assert AtId(src);
    if o.key.Some? {
      var k := o.key.value;
      HolderRemoved(g.objs, src, Detached, k);
      HolderAdded(mid, dst, o, k);
      MovedCounts(g.objs, g'.objs, g.views, dst, src, k);
    } else {
      NotedObject(g.objs, g.views, src, Detached);
      NotedObject(mid, g.views, dst, o);
    }
    OpensUntouched(g.objs, g'.objs, g.opens, dst, src);
    assert forall i :: i in g'.objs && i != dst && i != src ==> g'.objs[i] == g.objs[i];
  }

  lemma MovedCounts(objs: Objects, objs': Objects, views: Views, dst: nat, src: nat, k: Key)
    requires CountsMatch(objs, views) && src in Holders(objs, k) && dst !in Holders(objs, k)
    requires Holders(objs', k) == Holders(objs, k) - {src} + {dst}
    requires forall k' :: k' != k ==> Holders(objs', k') == Holders(objs, k')
    ensures CountsMatch(objs', views)
  {}

  lemma OpensUntouched(objs: Objects, objs': Objects, opens: Opens, dst: nat, src: nat)
    requires OpensDetached(objs, opens) && dst !in opens && src !in opens
    requires forall i :: i in objs && i != dst && i != src ==> i in objs' && objs'[i] == objs[i]
    ensures OpensDetached(objs', opens)
  {}

  // Other processes create sections, open them and let go of them.
  lemma ForeignKeeps(g: Registry, b: Book, g': Registry, created: Option<string>, foreign: set<nat>)
    requires Ok(g, b)
    requires g' == g.(os := Foreign(g.os, created, foreign))
    ensures Ok(g', b)
  {
    var os1 := NamedElsewhere(g.os, created);
    assert OsBase(os1);
    PruneKeeps(os1.(foreign := foreign));
    CreatedLater(g.opens, g.os.nextLife, g'.os.nextLife, b.creator, b.reported);
  }

  function NamedElsewhere(os: Os, created: Option<string>): Os {
    match created
    case Some(name) =>
      if name in os.named then os
      else os.(named := os.named[name := os.nextLife], nextLife := os.nextLife + 1)
    case None => os
  }

  function Foreign(os: Os, created: Option<string>, foreign: set<nat>): Os {
    Prune(NamedElsewhere(os, created).(foreign := foreign))
  }

  // What other processes can do: make a section under a free name and keep it alive, or let go of one,
  // whose name is then free unless this process holds it.
  lemma ForeignEffect(os: Os, created: Option<string>, foreign: set<nat>)
    ensures var os' := Foreign(os, created, foreign);
            && os'.handles == os.handles && os'.mapped == os.mapped && os'.foreign == foreign
            && (forall n :: n in os'.named && n in os.named ==> os'.named[n] == os.named[n])
            && (forall n :: n in os.named ==> (n in os'.named <==> os.named[n] in Lives(os.(foreign := foreign))))
            && (created.Some? && created.value !in os.named && os.nextLife in foreign ==>
                  created.value in os'.named && os'.named[created.value] == os.nextLife)
  {
    assert Lives(NamedElsewhere(os, created).(foreign := foreign)) == Lives(os.(foreign := foreign));
  }

  lemma CreatedLater(opens: Opens, nextLife: nat, later: nat, creator: map<nat, nat>, reported: seq<nat>)
    requires CreatedOnce(opens, nextLife, creator, reported) && nextLife <= later
    ensures CreatedOnce(opens, later, creator, reported)
  {}

  // ---------------------------------------------------------------------
  // shm::open, shm::detach and the moves
  // ---------------------------------------------------------------------

  // The system's answers to the calls that obtain a handle: whether an open or duplicate call
  // succeeds, whether a create call does, and the new handle value.
  datatype OpenReply = OpenReply(opens: bool, creates: bool, handle: Handle)

  // The answer to mapping and measuring: success, the address, and the size reported for a
  // section opened without one.
  datatype MapReply = MapReply(ok: bool, addr: Addr, bytes: nat)

  function RequestedKey(op: Opening): Key { Key(op.section.name, op.access, op.size) }

  // When an open of each mode obtains a section: opening wants one that lives, creating a size.
  ghost predicate CanOpen(g: Registry, name: string, size: nat, mode: Mode, reply: OpenReply) {
    match mode
    case Open => name in g.os.named && reply.opens
    case ReadOnly => name in g.os.named && reply.opens
    case OpenCreate => (reply.opens && name in g.os.named) || (size != 0 && reply.creates)
    case Create => size != 0 && reply.creates
  }

  lemma CanonicalIsEntry(g: Registry, b: Book, name: string)
    requires Ok(g, b) && name in g.canonical
    ensures g.canonical[name] in g.os.handles && name in g.os.named
    ensures g.os.handles[g.canonical[name]] == Section(name, g.os.named[name])
    ensures exists k :: k in g.views && k.name == name && g.views[k].handle == g.canonical[name]
  {
    assert AtName(name);
    var h := g.canonical[name];
    assert At<Handle>(h);
    assert Living(g.os.named, g.os.handles[h]);
    var k := b.hOwner[h].k;
    assert HandleOfView(g.views)[k] == h;
    assert k in g.views && k.name == name && g.views[k].handle == g.canonical[name];
  }

  // The object has joined the entry of a key, whose count has risen by one, or is the first there; no
  // other entry has changed. An open that may create leaves a canonical handle under the name.
  ghost predicate AttachedUnder(g0: Registry, g: Registry, id: nat, k: Key, register: bool) {
    && id in g.objs && k in g.views
    && g.objs[id].key == Some(k) && g.objs[id].name == k.name && g.objs[id].size == k.size
    && g.objs[id].addr == g.views[k].addr
    && g.views == g0.views[k := g.views[k]]
    && (k in g0.views ==> g.views[k] == g0.views[k].(refs := g0.views[k].refs + 1))
    && (k !in g0.views ==> g.views[k].refs == 1)
    && (register ==> k.name in g.canonical)
    && (!register || k.name in g0.canonical ==> g.canonical == g0.canonical)
    && (register && k.name !in g0.canonical ==> g.canonical == g0.canonical[k.name := g.views[k].handle])
  }

  lemma SharedAttaches(g: Registry, id: nat, k: Key)
    requires OpenHolds(g, id) && k in g.views
    ensures AttachedUnder(g, Shared(g, id, k), id, k, g.opens[id].register)
  {}

  lemma RegisteredAttaches(g: Registry, id: nat)
    requires OpenHolds(g, id) && g.opens[id].view.Some? && RequestedKey(g.opens[id]) !in g.views
    ensures AttachedUnder(g, Registered(g, id), id, RequestedKey(g.opens[id]), g.opens[id].register)
  {}

  // It makes no difference whether this is said of the state before or after obtaining handle and view.
  lemma AttachedSince(g0: Registry, g1: Registry, g: Registry, id: nat, k: Key, register: bool)
    requires g1.views == g0.views && g1.canonical == g0.canonical && AttachedUnder(g1, g, id, k, register)
    ensures AttachedUnder(g0, g, id, k, register)
  {}

  // The object is attached under the key its open asked for, to the very section the open obtained;
  // the entry counts it; and a section it created is announced, which it had not been before.
  ghost predicate OpenedAs(g0: Registry, b0: Book, g: Registry, b: Book, id: nat)
    requires id in g0.opens
  {
    var op := g0.opens[id];
    var k := RequestedKey(op);
    && g.opens == g0.opens - {id}
    && id in g.objs && g.objs == g0.objs[id := g.objs[id]]
    && g.objs[id].key == Some(k) && g.objs[id].name == k.name && g.objs[id].size == k.size
    && g.objs[id].created == op.created
    && k in g.views && g.objs[id].addr == g.views[k].addr
    && g.views[k].addr in g.os.mapped && g.os.mapped[g.views[k].addr] == op.section
    && g.views == g0.views[k := g.views[k]]
    && AttachedUnder(g0, g, id, k, op.register)
    && b.reported == Announce(b0, op).reported
    && (op.created ==> op.section.life !in b0.reported)
  }

  // What the invariant means for a user of the library: an attached object's memory is mapped,
  // from a section of its name that still lives, and the entry it shares counts its holders.
  lemma AttachedIsMapped(g: Registry, b: Book, id: nat)
    requires Ok(g, b) && id in g.objs && g.objs[id].key.Some?
    ensures var o := g.objs[id];
            && o.key.value in g.views && 0 < o.addr && o.addr == g.views[o.key.value].addr
            && o.addr in g.os.mapped && g.os.mapped[o.addr].name == o.name && Living(g.os.named, g.os.mapped[o.addr])
            && g.views[o.key.value].refs == |Holders(g.objs, o.key.value)|
  {
    assert AtId(id);
    var k := g.objs[id].key.value;
    assert AtKey(k);
    assert AddrOfView(g.views)[k] == g.views[k].addr;
    assert At<Addr>(g.views[k].addr);
  }

  // Views under different keys never share an address or a handle.
  lemma EntriesDisjoint(g: Registry, b: Book, k: Key, k': Key)
    requires Ok(g, b) && k in g.views && k' in g.views && k != k'
    ensures g.views[k].addr != g.views[k'].addr && g.views[k].handle != g.views[k'].handle
  {
    assert AtKey(k) && AtKey(k');
    assert AddrOfView(g.views)[k] == g.views[k].addr && AddrOfView(g.views)[k'] == g.views[k'].addr;
    assert HandleOfView(g.views)[k] == g.views[k].handle && HandleOfView(g.views)[k'] == g.views[k'].handle;
  }

  // Once no object is attached and no open is under way, the registry is empty, every handle and view
  // that was taken has been given back, exactly once, and only other processes keep sections alive.
  lemma AllDetached(g: Registry, b: Book)
    requires Ok(g, b) && g.opens == map[]
    requires forall id :: id in g.objs ==> g.objs[id].key.None?
    ensures g.views == map[] && g.canonical == map[]
    ensures g.os.handles == map[] && g.os.mapped == map[]
    ensures g.os.handlesTaken == g.os.handlesGiven && g.os.viewsTaken == g.os.viewsGiven
    ensures forall n :: n in g.os.named ==> g.os.named[n] in g.os.foreign
  {
    forall k ensures k !in g.views {
      assert AtKey(k);
      assert Holders(g.objs, k) == {};
    }
    forall h ensures h !in g.os.handles {
      assert At<Handle>(h);
    }
    forall a ensures a !in g.os.mapped {
      assert At<Addr>(a);
    }
    forall n ensures n !in g.canonical && (n in g.os.named ==> g.os.named[n] in g.os.foreign) {
      assert AtName(n);
    }
  }

  // One critical section or system call of some thread, or the work of another process.
  datatype Op =
    | New(id: nat)
    | Begin(id: nat, name: string, size: nat, mode: Mode, handle: OpenReply)
    | Reuse(id: nat)
    | Map(id: nat, view: MapReply)
    | Register(id: nat)
    | Detach(id: nat)
    | Move(dst: nat, src: nat)
    | Elsewhere(made: Option<string>, foreign: set<nat>)

  // When a thread can take the operation: the object exists and is in the right stage, and the
  // system hands out values that are not in use.
  predicate Enabled(g: Registry, op: Op) {
    match op
    case New(id) => id !in g.objs
    case Begin(id, _, _, _, r) =>
      id in g.objs && g.objs[id].key.None? && id !in g.opens && r.handle !in g.os.handles
    case Reuse(id) => id in g.opens && g.opens[id].view.None?
    case Map(id, r) => id in g.opens && g.opens[id].view.None? && r.addr !in g.os.mapped
    case Register(id) => id in g.opens && g.opens[id].view.Some?
    case Detach(id) => id in g.objs && id !in g.opens
    case Move(dst, src) => dst in g.objs && src in g.objs && dst !in g.opens && src !in g.opens
    case Elsewhere(_, _) => true
  }

  // What shows that an operation was carried out.
  ghost predicate Did(op: Op, g0: Registry, g: Registry) {
    match op
    case New(id) => id in g.objs && g.opens == g0.opens
    case Begin(id, name, size, mode, reply) =>
      if name != "" && CanOpen(g0, name, size, mode, reply)
      then id in g.opens && g.opens[id].section.name == name && g.opens[id].h == reply.handle
      else g.opens == g0.opens
    case Reuse(id) =>
      && id in g0.opens
      && if g0.opens[id].size != 0 && RequestedKey(g0.opens[id]) in g0.views
         then AttachedUnder(g0, g, id, RequestedKey(g0.opens[id]), g0.opens[id].register) && id !in g.opens
         else g == g0
    case Map(id, reply) =>
      if reply.ok then id in g.opens && g.opens[id].view == Some(reply.addr) && reply.addr in g.os.mapped
      else id !in g.opens && g.views == g0.views
    case Register(id) =>
      && id in g0.opens && id !in g.opens
      && AttachedUnder(g0, g, id, RequestedKey(g0.opens[id]), g0.opens[id].register)
    case Detach(id) => id in g0.objs && g.objs == g0.objs[id := Detached] && LeftEntry(g0, g, g0.objs[id].key)
    case Move(dst, src) =>
      dst in g0.objs && src in g0.objs && dst != src ==>
        g.objs == g0.objs[dst := g0.objs[src]][src := Detached] && LeftEntry(g0, g, g0.objs[dst].key)
    case Elsewhere(made, foreign) => g == g0.(os := Foreign(g0.os, made, foreign))
  }

  ghost predicate Done(op: Op, g0: Registry, g: Registry) { if Enabled(g0, op) then Did(op, g0, g) else g == g0 }

  ghost predicate Traced(ops: seq<Op>, trace: seq<Registry>) {
    |trace| == |ops| + 1 && forall i :: 0 <= i < |ops| ==> Done(ops[i], trace[i], trace[i + 1])
  }

  lemma TraceGrows(ops: seq<Op>, i: nat, trace: seq<Registry>, g: Registry)
    requires i < |ops| && Traced(ops[..i], trace) && Done(ops[i], trace[i], g)
    ensures Traced(ops[..i + 1], trace + [g])
  {
    var trace' := trace + [g];
    forall j | 0 <= j < i + 1 ensures Done(ops[..i + 1][j], trace'[j], trace'[j + 1]) {
      if j < i {
        assert Done(ops[..i][j], trace[j], trace[j + 1]);
      }
    }
  }

  // An object that held a key has let go of it: the count of its entry has fallen by one; or it was the
  // last, and the entry, its view, its handle and any canonical use of that handle are gone, and nothing
  // else. Without a key nothing has changed.
  ghost predicate LeftEntry(g0: Registry, g: Registry, key: Option<Key>) {
    match key
    case None => g.views == g0.views && g.canonical == g0.canonical && g.os == g0.os
    case Some(k) =>
      && k in g0.views
      && var v := g0.views[k];
         if v.refs > 1 then
           g.views == g0.views[k := v.(refs := v.refs - 1)] && g.canonical == g0.canonical && g.os == g0.os
         else
           && g.views == g0.views - {k}
           && g.canonical == (map n | n in g0.canonical && g0.canonical[n] != v.handle :: g0.canonical[n])
           && v.handle in g0.os.handles && g.os.handles == g0.os.handles - {v.handle}
           && v.addr in g0.os.mapped && g.os.mapped == g0.os.mapped - {v.addr}
  }

  // Only its own name can have an entry's handle as the canonical one.
  lemma CanonicalDropped(g: Registry, b: Book, k: Key)
    requires Ok(g, b) && k in g.views
    ensures WithoutCanonical(g.canonical, k.name, g.views[k].handle) ==
            map n | n in g.canonical && g.canonical[n] != g.views[k].handle :: g.canonical[n]
  {
    assert AtKey(k);
    assert HandleOfView(g.views)[k] == g.views[k].handle;
    forall n | n in g.canonical && g.canonical[n] == g.views[k].handle ensures n == k.name {
      assert AtName(n);
    }
  }

  class Process {
    var g: Registry
    ghost var b: Book

    ghost predicate Valid()
      reads this
    {
      Ok(g, b)
    }

    constructor ()
      ensures Valid() && g == Registry(EmptyOs, map[], map[], map[], map[]) && b.reported == []
    {
      g := Registry(EmptyOs, map[], map[], map[], map[]);
      b := Book(map[], map[], map[], []);
    }

    // A default-constructed object.
    method New(id: nat)
      requires Valid() && id !in g.objs
      modifies this`g
      ensures Valid() && g == old(g).(objs := old(g.objs)[id := Detached])
    {
      ghost var g0 := g;
      g := g.(objs := g.objs[id := Detached]);
      NoteKeeps(g0, b, g, id, Detached);
    }

    // What a failed open leaves in the object.
    method Note(id: nat, created: bool, name: string, size: nat)
      requires Valid() && id in g.objs && g.objs[id].key.None?
      modifies this`g
      ensures Valid() && g == old(g).(objs := old(g.objs)[id := Shm(0, size, 0, created, None, name)])
    {
      ghost var g0 := g;
      var o := Shm(0, size, 0, created, None, name);
      g := g.(objs := g.objs[id := o]);
      NoteKeeps(g0, b, g, id, o);
    }

    // Opening a section: TakeHandle for one that lives, CreateSection for a new one.
    method Hold(id: nat, op: Opening)
      requires Valid() && id in g.objs && g.objs[id].key.None? && id !in g.opens
      requires op.h !in g.os.handles && op.view.None?
      requires if op.created
               then op.section == Section(op.section.name, g.os.nextLife) && op.section.name !in g.os.named
               else Living(g.os.named, op.section)
      modifies this
      ensures Valid() && b.reported == old(b.reported)
      ensures g == old(g).(opens := old(g.opens)[id := op],
                           os := if op.created then CreateSection(old(g.os), op.h, op.section.name)
                                 else TakeHandle(old(g.os), op.h, op.section))
    {
      ghost var g0, b0 := g, b;
      var os := if op.created then CreateSection(g.os, op.h, op.section.name) else TakeHandle(g.os, op.h, op.section);
      b := b.(hOwner := b.hOwner[op.h := ByOpen(id)],
              creator := if op.created then b.creator[g.os.nextLife := id] else b.creator);
      g := g.(os := os, opens := g.opens[id := op]);
      HoldKeeps(g0, b0, g, b, id, op);
    }

    // Which section an open uses: the mode decides between the canonical handle, the named
    // section and a new one. A section counts as created exactly when it is new.
    method ChooseSection(name: string, size: nat, mode: Mode, reply: OpenReply) returns (op: Option<Opening>)
      requires Valid() && name != ""
      ensures op.Some? == CanOpen(g, name, size, mode, reply)
      ensures op.Some? ==>
                && op.value == Opening(op.value.section, if mode.ReadOnly? then Read else ReadWrite, size,
                                       name !in g.os.named, mode.Create? || mode.OpenCreate?, reply.handle, None)
                && op.value.section == Section(name, if name in g.os.named then g.os.named[name] else g.os.nextLife)
    {
      var created := false;
      if name in g.canonical {
        CanonicalIsEntry(g, b, name);
      }
      if mode.Open? || mode.ReadOnly? {
        // DuplicateHandle on the canonical handle, else OpenFileMapping
        if (name !in g.canonical && name !in g.os.named) || !reply.opens {
          return None;
        }
      } else if mode.Create? || !reply.opens || name !in g.os.named {
        // CreateFileMapping, which may still find the name in use
        if size == 0 || !reply.creates {
          return None;
        }
        created := name !in g.os.named;
      }
      var section := if created then Section(name, g.os.nextLife) else Section(name, g.os.named[name]);
      return Some(Opening(section, if mode.ReadOnly? then Read else ReadWrite, size, created,
                          mode.Create? || mode.OpenCreate?, reply.handle, None));
    }

    // open, up to having a handle.
    method BeginOpen(id: nat, name: string, size: nat, mode: Mode, reply: OpenReply) returns (ok: bool)
      requires Valid() && id in g.objs && g.objs[id].key.None? && id !in g.opens
      requires reply.handle !in g.os.handles
      modifies this
      ensures Valid() && b.reported == old(b.reported)
      ensures g.views == old(g.views) && g.canonical == old(g.canonical) && g.os.mapped == old(g.os.mapped)
      ensures ok == (name != "" && old(CanOpen(g, name, size, mode, reply)))
      ensures ok ==> Begun(old(g), id, name, size, mode, reply)
      ensures !ok ==>
                g == old(g).(objs := old(g.objs)[id := Shm(0, if name == "" then old(g.objs[id].size) else size,
                                                           0, false, None, name)])
    {
      if name == "" {
        Note(id, false, "", g.objs[id].size);
        return false;
      }
      var op := ChooseSection(name, size, mode, reply);
      if op.None? {
        Note(id, false, name, size);
        return false;
      }
      Hold(id, op.value);
      return true;
    }

    ghost predicate Begun(g0: Registry, id: nat, name: string, size: nat, mode: Mode, reply: OpenReply)
      reads this
    {
      && g.objs == g0.objs && id in g.opens && g.opens == g0.opens[id := g.opens[id]]
      && g.opens[id].section.name == name && g.opens[id].size == size && g.opens[id].view.None?
      && g.opens[id].access == (if mode.ReadOnly? then Read else ReadWrite)
      && g.opens[id].created == (name !in g0.os.named)
      && g.opens[id].register == (mode.Create? || mode.OpenCreate?)
      && g.opens[id].h == reply.handle
      && g.os.handles == g0.os.handles[reply.handle := g.opens[id].section]
    }

    // The open gives back what it holds.
    method Release(id: nat)
      requires Valid() && id in g.opens
      modifies this
      ensures Valid() && b.reported == old(b.reported) && b.creator == old(b.creator)
      ensures old(OpenHolds(g, id))
      ensures g == old(g).(opens := old(g.opens) - {id}, os := old(Released(g.os, g.opens[id])))
    {
      ghost var g0, b0 := g, b;
      HeldByOpen(g.os, b.hOwner, b.aOwner, g.views, g.opens, id);
      var op := g.opens[id];
      b := b.(hOwner := b.hOwner - {op.h}, aOwner := if op.view.Some? then b.aOwner - {op.view.value} else b.aOwner);
      g := g.(os := Released(g.os, op), opens := g.opens - {id});
      ReleaseKeeps(g0, b0, g, b, id);
    }

    // Attaching to an entry that exists: the open's own handle and view go, the count rises.
    method Share(id: nat, k: Key)
      requires Valid() && id in g.opens && k in g.views && k.name == g.opens[id].section.name
      modifies this
      ensures Valid()
      ensures old(OpenHolds(g, id)) && g == old(Shared(g, id, k))
      ensures b.reported == old(Announce(b, g.opens[id]).reported)
      ensures old(g.opens[id].created) ==> old(g.opens[id].section.life) !in old(b.reported)
    {
      ghost var g0, b0 := g, b;
      HeldByOpen(g.os, b.hOwner, b.aOwner, g.views, g.opens, id);
      var op := g.opens[id];
      b := b.(hOwner := b.hOwner - {op.h}, aOwner := if op.view.Some? then b.aOwner - {op.view.value} else b.aOwner);
      g := Shared(g, id, k);
      ReleaseThenShare(g0, b0, g, b, id, k);
      b := Announce(b, op);
    }

    // The first critical section: an entry for the requested size is shared at once.
    method TryReuse(id: nat) returns (done: bool)
      requires Valid() && id in g.opens && g.opens[id].view.None?
      modifies this
      ensures Valid()
      ensures done == old(g.opens[id].size != 0 && RequestedKey(g.opens[id]) in g.views)
      ensures !done ==> g == old(g) && b == old(b)
      ensures done ==> OpenedAs(old(g), old(b), g, b, id)
    {
      var k := RequestedKey(g.opens[id]);
      if g.opens[id].size != 0 && k in g.views {
        ghost var g0, b0 := g, b;
        Share(id, k);
        SharedSection(g0, b0, id, k);
        SharedAttaches(g0, id, k);
        return true;
      }
      return false;
    }

    // An open whose mapping failed closes its handle.
    method GiveUp(id: nat)
      requires Valid() && id in g.opens && g.opens[id].view.None?
      modifies this
      ensures Valid() && b.reported == old(b.reported)
      ensures g.opens == old(g.opens) - {id} && g.views == old(g.views) && g.canonical == old(g.canonical)
      ensures g.objs == old(g.objs)[id := Shm(0, old(g.opens[id].size), 0, old(g.opens[id].created), None,
                                              old(g.opens[id].section.name))]
      ensures g.os.handles == old(g.os.handles) - {old(g.opens[id].h)} && g.os.mapped == old(g.os.mapped)
    {
      var op := g.opens[id];
      assert id in g.objs && g.objs[id].key.None? by { assert AtId(id); }
      Release(id);
      Note(id, op.created, op.section.name, op.size);
    }

    // Mapping the section. On failure the handle is closed and the object stays detached.
    method MapView(id: nat, reply: MapReply) returns (ok: bool)
      requires Valid() && id in g.opens && g.opens[id].view.None? && reply.addr !in g.os.mapped
      modifies this
      ensures Valid() && b.reported == old(b.reported)
      ensures ok == reply.ok
      ensures ok ==>
                var op := old(g.opens[id]);
                g == old(g).(os := TakeView(old(g.os), reply.addr, op.section),
                             opens := old(g.opens)[id := op.(view := Some(reply.addr),
                                                             size := if op.size == 0 then reply.bytes else op.size)])
      ensures !ok ==>
                && g.opens == old(g.opens) - {id} && g.views == old(g.views) && g.canonical == old(g.canonical)
                && g.objs == old(g.objs)[id := Shm(0, old(g.opens[id].size), 0, old(g.opens[id].created), None,
                                                   old(g.opens[id].section.name))]
                && g.os.handles == old(g.os.handles) - {old(g.opens[id].h)} && g.os.mapped == old(g.os.mapped)
    {
      ghost var g0, b0 := g, b;
      var op := g.opens[id];
      if !reply.ok {
        GiveUp(id);
        return false;
      }
      var op' := op.(view := Some(reply.addr), size := if op.size == 0 then reply.bytes else op.size);
      b := b.(aOwner := b.aOwner[reply.addr := ByOpen(id)]);
      g := g.(os := TakeView(g.os, reply.addr, op.section), opens := g.opens[id := op']);
      MapKeeps(g0, b0, g, b, id, op');
      return true;
    }

    // This open's handle and view become the entry.
    method AddEntry(id: nat)
      requires Valid() && OpenHolds(g, id) && g.opens[id].view.Some? && RequestedKey(g.opens[id]) !in g.views
      modifies this
      ensures Valid() && g == old(Registered(g, id))
      ensures var a := old(g.opens[id].view.value);
              a in g.os.mapped && g.os.mapped[a] == old(g.opens[id].section)
      ensures b.reported == old(Announce(b, g.opens[id]).reported)
      ensures old(g.opens[id].created) ==> old(g.opens[id].section.life) !in old(b.reported)
    {
      ghost var g0, b0 := g, b;
      var op := g.opens[id];
      var k := RequestedKey(op);
      MappedSection(g, b, id);
      b := b.(hOwner := b.hOwner[op.h := ByView(k)], aOwner := b.aOwner[op.view.value := ByView(k)]);
      g := Registered(g, id);
      RegisterKeeps(g0, b0, g, b, id, k, g.views[k], g.objs[id]);
      AnnounceKeeps(g0, b0, g, b, id);
      b := Announce(b, op);
    }

    // The second critical section: another thread may have registered the same view meanwhile;
    // otherwise this open becomes the entry.
    method Register(id: nat)
      requires Valid() && id in g.opens && g.opens[id].view.Some?
      modifies this
      ensures Valid()
      ensures OpenedAs(old(g), old(b), g, b, id)
      ensures old(OpenHolds(g, id) && RequestedKey(g.opens[id]) !in g.views) ==> g == old(Registered(g, id))
    {
      HeldByOpen(g.os, b.hOwner, b.aOwner, g.views, g.opens, id);
      var k := RequestedKey(g.opens[id]);
      if k in g.views {
        ghost var g0, b0 := g, b;
        Share(id, k);
        SharedSection(g0, b0, id, k);
        SharedAttaches(g0, id, k);
      } else {
        RegisteredAttaches(g, id);
        AddEntry(id);
      }
    }

    // The rest of open, from the handle on.
    method FinishOpen(id: nat, reply: MapReply) returns (ok: bool)
      requires Valid() && id in g.opens && g.opens[id].view.None? && reply.addr !in g.os.mapped
      modifies this
      ensures Valid() && g.opens == old(g.opens) - {id}
      ensures id in g.objs && g.objs == old(g.objs)[id := g.objs[id]]
      ensures g.objs[id].name == old(g.opens[id].section.name) && g.objs[id].created == old(g.opens[id].created)
      ensures old(g.opens[id].size) != 0 ==> g.objs[id].size == old(g.opens[id].size)
      ensures ok == g.objs[id].key.Some?
      ensures ok <==> reply.ok || old(g.opens[id].size != 0 && RequestedKey(g.opens[id]) in g.views)
      ensures ok ==>
                var op := old(g.opens[id]);
                var size := if op.size != 0 then op.size else reply.bytes;
                AttachedUnder(old(g), g, id, Key(op.section.name, op.access, size), op.register)
      ensures !ok ==>
                && g.views == old(g.views) && g.canonical == old(g.canonical) && b.reported == old(b.reported)
                && g.os.handles == old(g.os.handles) - {old(g.opens[id].h)} && g.os.mapped == old(g.os.mapped)
    {
      ghost var g0, opens := g, g.opens;
      ok := TryReuse(id);
      if ok {
        return;
      }
      ok := MapView(id, reply);
      if ok {
        PutThenRemove(opens, id, g.opens[id]);
        ghost var g1 := g;
        Register(id);
        AttachedSince(g0, g1, g, id, RequestedKey(g1.opens[id]), g1.opens[id].register);
      }
    }

    // shm::open on a detached object, run without interference.
    method Open(id: nat, name: string, size: nat, mode: Mode, openReply: OpenReply, mapReply: MapReply)
      returns (ok: bool)
      requires Valid() && id in g.objs && g.objs[id].key.None? && id !in g.opens
      requires openReply.handle !in g.os.handles && mapReply.addr !in g.os.mapped
      modifies this
      ensures Valid() && g.opens == old(g.opens)
      ensures var access := if mode.ReadOnly? then Read else ReadWrite;
              ok <==> && name != "" && old(CanOpen(g, name, size, mode, openReply))
                      && (mapReply.ok || (size != 0 && Key(name, access, size) in old(g.views)))
      ensures ok ==>
                && id in g.objs && g.objs == old(g.objs)[id := g.objs[id]]
                && g.objs[id].created == (name !in old(g.os.named))
                && AttachedUnder(old(g), g, id,
                                 Key(name, if mode.ReadOnly? then Read else ReadWrite,
                                     if size != 0 then size else mapReply.bytes),
                                 mode.Create? || mode.OpenCreate?)
      ensures !ok ==>
                && id in g.objs && g.objs == old(g.objs)[id := g.objs[id]] && g.objs[id].key.None?
                && g.views == old(g.views) && g.canonical == old(g.canonical)
                && g.os.handles == old(g.os.handles) && g.os.mapped == old(g.os.mapped)
                && b.reported == old(b.reported)
    {
      ghost var g0 := g;
      ok := BeginOpen(id, name, size, mode, openReply);
      if ok {
        PutThenRemove(g0.opens, id, g.opens[id]);
        PutThenRemove(g0.os.handles, openReply.handle, g.opens[id].section);
        ghost var g1 := g;
        ok := FinishOpen(id, mapReply);
        if ok {
          var k := Key(name, if mode.ReadOnly? then Read else ReadWrite, if size != 0 then size else mapReply.bytes);
          AttachedSince(g0, g1, g, id, k, mode.Create? || mode.OpenCreate?);
        }
      }
    }

    // shm::detach: the last holder unmaps the view and closes the handle.
    method Detach(id: nat)
      requires Valid() && id in g.objs && id !in g.opens
      modifies this
      ensures Valid() && g.objs == old(g.objs)[id := Detached] && g.opens == old(g.opens)
      ensures b.reported == old(b.reported)
      ensures LeftEntry(old(g), g, old(g.objs[id].key))
    {
      ghost var g0, b0 := g, b;
      assert ObjectMatches(g.objs[id], g.views) by { assert AtId(id); }
      match g.objs[id].key {
        case None =>
          g := g.(objs := g.objs[id := Detached]);
          NoteKeeps(g0, b, g, id, Detached);
        case Some(k) =>
          var v := g.views[k];
          assert 1 <= v.refs by { assert AtKey(k); }
          if v.refs - 1 <= 0 {
            EntryIsMapped(g.os, b.hOwner, b.aOwner, g.views, g.opens, k);
            CanonicalDropped(g, b, k);
            b := b.(hOwner := b.hOwner - {v.handle}, aOwner := b.aOwner - {v.addr});
            g := g.(objs := g.objs[id := Detached], views := g.views - {k},
                    canonical := WithoutCanonical(g.canonical, g.objs[id].name, v.handle),
                    os := GiveHandle(GiveView(g.os, v.addr), v.handle));
            LeaveLastKeeps(g0, b0, g, b, id, k, v);
          } else {
            g := g.(objs := g.objs[id := Detached], views := g.views[k := v.(refs := v.refs - 1)]);
            LeaveSharedKeeps(g0, b, g, id, k);
          }
      }
    }

    // Move assignment (and, into a fresh object, move construction).
    method MoveAssign(dst: nat, src: nat)
      requires Valid() && dst in g.objs && src in g.objs && dst !in g.opens && src !in g.opens
      modifies this
      ensures Valid() && g.opens == old(g.opens) && b.reported == old(b.reported)
      ensures dst == src ==> g == old(g)
      ensures dst != src ==>
                && g.objs == old(g.objs)[dst := old(g.objs[src])][src := Detached]
                && LeftEntry(old(g), g, old(g.objs[dst].key))
    {
      if dst == src {
        return;
      }
      PutTwice(g.objs, dst, Detached, g.objs[src]);
      Detach(dst);
      TakeOver(dst, src);
    }

    // The fields pass to a detached object.
    method TakeOver(dst: nat, src: nat)
      requires Valid() && dst in g.objs && src in g.objs && dst !in g.opens && src !in g.opens
      requires dst != src && g.objs[dst].key.None?
      modifies this`g
      ensures Valid() && g == old(g.(objs := g.objs[dst := g.objs[src]][src := Detached]))
    {
      ghost var g0 := g;
      g := g.(objs := g.objs[dst := g.objs[src]][src := Detached]);
      MoveKeeps(g0, b, g, dst, src);
    }

    method Step(op: Op)
      requires Valid() && Enabled(g, op)
      modifies this
      ensures Valid() && old(b.reported) <= b.reported && Did(op, old(g), g)
    {
      match op {
        case New(id) => New(id);
        case Begin(id, name, size, mode, r) => var _ := BeginOpen(id, name, size, mode, r);
        case Reuse(id) => var _ := TryReuse(id);
        case Map(id, r) => var _ := MapView(id, r);
        case Register(id) => Register(id);
        case Detach(id) => Detach(id);
        case Move(dst, src) => MoveAssign(dst, src);
        case Elsewhere(made, foreign) => Elsewhere(made, foreign);
      }
    }

    // Any interleaving of any threads' operations keeps the invariant. The log of sections reported as
    // created only grows, and no section is in it twice. The trace has the states the operations were
    // carried out in.
    method Execute(ops: seq<Op>) returns (ghost trace: seq<Registry>)
      requires Valid()
      modifies this
      ensures Valid() && old(b.reported) <= b.reported && Distinct(b.reported)
      ensures Traced(ops, trace) && trace[0] == old(g) && trace[|ops|] == g
    {
      trace := [g];
      for i := 0 to |ops|
        invariant Valid() && old(b.reported) <= b.reported
        invariant Traced(ops[..i], trace) && trace[0] == old(g) && trace[i] == g
      {
        Take(ops[i]);
        TraceGrows(ops, i, trace, g);
        trace := trace + [g];
      }
      assert ops[..|ops|] == ops;
    }

    // An operation that can be taken is, and any other is not.
    method Take(op: Op)
      requires Valid()
      modifies this
      ensures Valid() && old(b.reported) <= b.reported && Done(op, old(g), g)
    {
      if Enabled(g, op) {
        Step(op);
      }
    }

    // Other processes at work.
    method Elsewhere(created: Option<string>, foreign: set<nat>)
      requires Valid()
      modifies this`g
      ensures Valid() && g == old(g).(os := Foreign(old(g.os), created, foreign))
    {
      ghost var g0 := g;
      g := g.(os := Foreign(g.os, created, foreign));
      ForeignKeeps(g0, b, g, created, foreign);
    }
  }
}
