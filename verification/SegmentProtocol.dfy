/**
How a segment's header is published and joined (src/core/layout_manager.cpp and the endpoint and
observer classes, and the reader of a channel's options by path). One creator writes the header
field by field and sets `is_ready` last; any number of clients read the magic number, spin on
`is_ready` and then compare the header field by field, each load a step of its own, so that every
interleaving is a run of these steps. A client that passes and is not an observer adds itself to
`attach_count`, and takes itself off when it is destroyed. A reader first copies six fields out of
the header, and then validates the header against its copy. The ring library that fills in part of
the header is known only by what it leaves behind: while it runs, its fields may hold anything.
*/
module SegmentProtocol {
  import opened Common

  // What a build of the library fixes: the ring's magic number and version, and the header size.
  datatype Abi = Abi(magic: nat, major: nat, minor: nat, headerSize: nat)

  // The fields of the control block that clients read.
  datatype Fields = Fields(
    magic: nat, major: nat, minor: nat, headerSize: nat,
    layout: nat, itemSize: nat, capacity: nat, alignment: bv32,
    schema: nat, timestamp: nat, flags: nat
  )

  const Zeroed := Fields(0, 0, 0, 0, 0, 0, 0, 0, 0, 0, 0)

  // What the creator passes to format.
  datatype Request = Request(layout: nat, itemSize: nat, capacity: nat, alignment: bv32,
                             schema: nat, timestamp: nat, flags: nat)

  // What a client expects of the segment.
  datatype Expected = Expected(layout: nat, itemSize: nat, capacity: nat, alignment: bv32, schema: nat)

  datatype Error =
    | Ok
    | NotAttached
    | BadMagic
    | NotReady
    | Version
    | HeaderSize
    | LayoutType
    | ItemSize
    | SchemaId
    | Alignment
    | Capacity
    | ItemSizeIncompatible

  // layout_manager::is_ready_spin_limit
  const SpinLimit: nat := 1_000_000

  function DefaultAlignment(a: bv32): bv32 { if a == 0 then 8 else a }

  predicate IsPowerOfTwo(x: bv32) { x >= 4 && x & (x - 1) == 0 }

  // The bit trick accepts exactly the powers of two from 4 up.
  lemma PowersOfTwo(x: bv32)
    ensures IsPowerOfTwo(x) <==>
              || x == 0x4 || x == 0x8
              || x == 0x10 || x == 0x20 || x == 0x40 || x == 0x80
              || x == 0x100 || x == 0x200 || x == 0x400 || x == 0x800
              || x == 0x1000 || x == 0x2000 || x == 0x4000 || x == 0x8000
              || x == 0x1_0000 || x == 0x2_0000 || x == 0x4_0000 || x == 0x8_0000
              || x == 0x10_0000 || x == 0x20_0000 || x == 0x40_0000 || x == 0x80_0000
              || x == 0x100_0000 || x == 0x200_0000 || x == 0x400_0000 || x == 0x800_0000
              || x == 0x1000_0000 || x == 0x2000_0000 || x == 0x4000_0000 || x == 0x8000_0000
  {}

  // The header a creator leaves behind.
  function Final(abi: Abi, r: Request): Fields {
    Fields(abi.magic, abi.major, abi.minor, abi.headerSize, r.layout, r.itemSize, r.capacity,
           DefaultAlignment(r.alignment), r.schema, r.timestamp, r.flags)
  }

  // The comparisons made once the header is ready, in order.
  const Checks: nat := 8

  function Check(n: nat, abi: Abi, h: Fields, e: Expected): Error
    requires n < Checks
  {
    match n
    case 0 => if h.major != abi.major || h.minor != abi.minor then Version else Ok
    case 1 => if h.headerSize != abi.headerSize then HeaderSize else Ok
    case 2 => if h.layout != e.layout then LayoutType else Ok
    case 3 => if h.itemSize != e.itemSize then ItemSize else Ok
    case 4 => if h.itemSize != 0 && h.capacity % h.itemSize != 0 then ItemSizeIncompatible else Ok
    case 5 => if h.schema != e.schema then SchemaId else Ok
    case 6 => if h.alignment != DefaultAlignment(e.alignment) || !IsPowerOfTwo(h.alignment) then Alignment else Ok
    case 7 => if h.capacity < e.capacity then Capacity else Ok
  }

  // The first check from the n-th on that fails.
  function ChecksFrom(n: nat, abi: Abi, h: Fields, e: Expected): Error
    requires n <= Checks
    decreases Checks - n
  {
    if n == Checks then Ok
    else if Check(n, abi, h, e) != Ok then Check(n, abi, h, e)
    else ChecksFrom(n + 1, abi, h, e)
  }

  // Validating a header that nobody is writing.
  function Validate(abi: Abi, h: Fields, e: Expected): Error {
    if h.magic != abi.magic then BadMagic else ChecksFrom(0, abi, h, e)
  }

  // When a header and an expectation belong together.
  ghost predicate Compatible(abi: Abi, h: Fields, e: Expected) {
    && h.magic == abi.magic && h.major == abi.major && h.minor == abi.minor && h.headerSize == abi.headerSize
    && h.layout == e.layout && h.itemSize == e.itemSize && h.schema == e.schema
    && (h.itemSize != 0 ==> h.capacity % h.itemSize == 0)
    && h.alignment == DefaultAlignment(e.alignment) && IsPowerOfTwo(h.alignment)
    && e.capacity <= h.capacity
  }

  lemma ChecksUnfold(abi: Abi, h: Fields, e: Expected)
    ensures ChecksFrom(0, abi, h, e) == Ok <==> forall n: nat :: n < Checks ==> Check(n, abi, h, e) == Ok
  {
    ChecksAll(0, abi, h, e);
  }

  lemma {:induction false} ChecksAll(n: nat, abi: Abi, h: Fields, e: Expected)
    requires n <= Checks
    ensures ChecksFrom(n, abi, h, e) == Ok <==> forall i: nat :: n <= i < Checks ==> Check(i, abi, h, e) == Ok
    ensures ChecksFrom(n, abi, h, e) !in {NotAttached, BadMagic, NotReady}
    decreases Checks - n
  {
    if n < Checks {
      ChecksAll(n + 1, abi, h, e);
    }
  }

  lemma ValidateIsCompatible(abi: Abi, h: Fields, e: Expected)
    ensures Validate(abi, h, e) == Ok <==> Compatible(abi, h, e)
  {
    ChecksUnfold(abi, h, e);
    var f := (n: nat) requires n < Checks => Check(n, abi, h, e);
    if Validate(abi, h, e) == Ok {
      assert f(0) == f(1) == f(2) == f(3) == f(4) == f(5) == f(6) == f(7) == Ok;
    }
  }

  // The fields, in the order they are compared, that agree up to some point.
  ghost predicate SameMagic(abi: Abi, h: Fields) { h.magic == abi.magic }

  ghost predicate SameVersion(abi: Abi, h: Fields) {
    SameMagic(abi, h) && h.major == abi.major && h.minor == abi.minor
  }

  ghost predicate SameSize(abi: Abi, h: Fields) { SameVersion(abi, h) && h.headerSize == abi.headerSize }

  ghost predicate SameLayout(abi: Abi, h: Fields, e: Expected) { SameSize(abi, h) && h.layout == e.layout }

  ghost predicate SameItems(abi: Abi, h: Fields, e: Expected) { SameLayout(abi, h, e) && h.itemSize == e.itemSize }

  ghost predicate ItemsFit(abi: Abi, h: Fields, e: Expected) {
    SameItems(abi, h, e) && (h.itemSize == 0 || h.capacity % h.itemSize == 0)
  }

  ghost predicate SameSchema(abi: Abi, h: Fields, e: Expected) { ItemsFit(abi, h, e) && h.schema == e.schema }

  ghost predicate SameAlignment(abi: Abi, h: Fields, e: Expected) {
    && SameSchema(abi, h, e) && IsPowerOfTwo(h.alignment)
    && h.alignment == (if e.alignment == 0 then 8 else e.alignment)
  }

  // Each verdict names the first field that does not agree.
  ghost predicate VerdictIsFirst(abi: Abi, h: Fields, e: Expected, v: Error) {
    && (v == BadMagic <==> !SameMagic(abi, h))
    && (v == Version <==> SameMagic(abi, h) && !SameVersion(abi, h))
    && (v == HeaderSize <==> SameVersion(abi, h) && !SameSize(abi, h))
    && (v == LayoutType <==> SameSize(abi, h) && !SameLayout(abi, h, e))
    && (v == ItemSize <==> SameLayout(abi, h, e) && !SameItems(abi, h, e))
    && (v == ItemSizeIncompatible <==> SameItems(abi, h, e) && !ItemsFit(abi, h, e))
    && (v == SchemaId <==> ItemsFit(abi, h, e) && !SameSchema(abi, h, e))
    && (v == Alignment <==> SameSchema(abi, h, e) && !SameAlignment(abi, h, e))
    && (v == Capacity <==> SameAlignment(abi, h, e) && h.capacity < e.capacity)
    && (v == Ok <==> SameAlignment(abi, h, e) && e.capacity <= h.capacity)
  }

  lemma VerdictOfHeader(abi: Abi, h: Fields, e: Expected)
    ensures VerdictIsFirst(abi, h, e, Validate(abi, h, e))
  {
    FirstChecks(abi, h, e);
    LastChecks(abi, h, e);
  }

  lemma FirstChecks(abi: Abi, h: Fields, e: Expected)
    ensures ChecksFrom(0, abi, h, e) ==
            if h.major != abi.major || h.minor != abi.minor then Version
            else if h.headerSize != abi.headerSize then HeaderSize
            else if h.layout != e.layout then LayoutType
            else if h.itemSize != e.itemSize then ItemSize
            else ChecksFrom(4, abi, h, e)
  {
    assert ChecksFrom(2, abi, h, e) ==
           if Check(2, abi, h, e) != Ok then Check(2, abi, h, e)
           else if Check(3, abi, h, e) != Ok then Check(3, abi, h, e) else ChecksFrom(4, abi, h, e);
  }

  lemma LastChecks(abi: Abi, h: Fields, e: Expected)
    ensures ChecksFrom(4, abi, h, e) ==
            if h.itemSize != 0 && h.capacity % h.itemSize != 0 then ItemSizeIncompatible
            else if h.schema != e.schema then SchemaId
            else if h.alignment != DefaultAlignment(e.alignment) || !IsPowerOfTwo(h.alignment) then Alignment
            else if h.capacity < e.capacity then Capacity
            else Ok
  {
    assert ChecksFrom(6, abi, h, e) ==
           if Check(6, abi, h, e) != Ok then Check(6, abi, h, e) else Check(7, abi, h, e);
  }

  // The creator's own parameters always pass, when the ring takes them: the alignment is a power
  // of two from 4 up and items divide the capacity.
  lemma CreatorMatchesItself(abi: Abi, r: Request, e: Expected)
    requires e == Expected(r.layout, r.itemSize, r.capacity, r.alignment, r.schema)
    ensures Validate(abi, Final(abi, r), e) == Ok <==>
              IsPowerOfTwo(DefaultAlignment(r.alignment)) && (r.itemSize != 0 ==> r.capacity % r.itemSize == 0)
  {
    ValidateIsCompatible(abi, Final(abi, r), e);
  }

  // ---------------------------------------------------------------------
  // validate_detailed, as a client runs it
  // ---------------------------------------------------------------------

  // The wait for is_ready: `loads(i)` is what the i-th load returns.
  method SpinUntilReady(loads: nat -> bool) returns (ready: bool, n: nat)
    ensures 1 <= n <= 1_000_000
    ensures forall i: nat :: i < n - 1 ==> !loads(i)
    ensures ready == loads(n - 1)
    ensures !ready ==> n == 1_000_000
    ensures ready <==> exists i: nat :: i < 1_000_000 && loads(i)
  {
    var limit: int := SpinLimit;
    n := 0;
    while !loads(n)
      invariant n == SpinLimit - limit && 0 < limit <= SpinLimit
      invariant forall i: nat :: i < n ==> !loads(i)
      decreases limit
    {
      n := n + 1;
      limit := limit - 1;
      if limit <= 0 {
        return false, n;
      }
    }
    return true, n + 1;
  }

  // validate_detailed on a header whose fields do not change while it looks.
  method ValidateDetailed(abi: Abi, header: Option<Fields>, loads: nat -> bool, e: Expected) returns (error: Error)
    ensures error == NotAttached <==> header.None?
    ensures header.Some? ==> (error == BadMagic <==> header.value.magic != abi.magic)
    ensures error == NotReady <==>
              header.Some? && header.value.magic == abi.magic && forall i: nat :: i < SpinLimit ==> !loads(i)
    ensures header.Some? && (exists i: nat :: i < SpinLimit && loads(i)) ==>
              error == Validate(abi, header.value, e) && VerdictIsFirst(abi, header.value, e, error)
    ensures error == Ok <==>
              header.Some? && Compatible(abi, header.value, e) && exists i: nat :: i < SpinLimit && loads(i)
  {
    if header.None? {
      return NotAttached;
    }
    var h := header.value;
    ValidateIsCompatible(abi, h, e);
    VerdictOfHeader(abi, h, e);
    ChecksAll(0, abi, h, e);
    if h.magic != abi.magic {
      return BadMagic;
    }
    var ready, _ := SpinUntilReady(loads);
    if !ready {
      return NotReady;
    }
    var n := 0;
    while n < Checks
      invariant n <= Checks && ChecksFrom(0, abi, h, e) == ChecksFrom(n, abi, h, e)
    {
      error := Check(n, abi, h, e);
      if error != Ok {
        return;
      }
      n := n + 1;
    }
    return Ok;
  }

  // ---------------------------------------------------------------------
  // The interleaved protocol
  // ---------------------------------------------------------------------

  // Where the creator is in _init_header.
  datatype Phase =
    | Filling                 // inside the ring library's initialisation
    | Overriding              // about to correct header_size
    | BeforeSchema            // about to store schema_id
    | BeforeTimestamp         // about to store creator_timestamp_ns
    | BeforeFlags             // about to store creator_flags
    | Counting                // about to set attach_count to 1
    | Publishing              // about to set is_ready
    | Published
    | Gone                    // published, and the creating endpoint destroyed
    | Failed                  // initialisation refused

  // Which of the three stores after the ring's are done.
  predicate SchemaStored(p: Phase) { TimestampStored(p) || p == BeforeTimestamp }

  predicate TimestampStored(p: Phase) { FlagsStored(p) || p == BeforeFlags }

  predicate FlagsStored(p: Phase) { p == Counting || p == Publishing || p == Published || p == Gone }

  // Where a client is.
  datatype Stage =
    | Copying(k: nat)         // a reader, about to copy the k-th of six fields
    | AtMagic
    | Spinning(left: nat)
    | Checking(n: nat)
    | Joined                  // constructor done
    | Left                    // destroyed
    | Refused(error: Error)

  // `counts` tells an endpoint from an observer, `late` whether the client started when the
  // header was ready, `refused` the first verdict of a client that now looks again to report it.
  // A reader has its copy of the fields, with a note of whether the creator's two stores were done
  // when it loaded them.
  datatype Client = Client(e: Expected, counts: bool, late: bool, stage: Stage, loads: nat, refused: Option<Error>,
                           reading: Option<Copy>)

  datatype Copy = Copy(fields: Fields, timestampStored: bool, flagsStored: bool)

  // What a reader expects of the header, from its own copy.
  function ExpectedOfCopy(f: Fields): Expected {
    Expected(f.layout, f.itemSize, 0, DefaultAlignment(f.alignment), f.schema)
  }

  const Copies: nat := 6

  // The k-th load of a reader.
  function CopyField(k: nat, copy: Copy, h: Fields, p: Phase): Copy {
    match k
    case 0 => copy.(fields := copy.fields.(layout := h.layout))
    case 1 => copy.(fields := copy.fields.(alignment := h.alignment))
    case 2 => copy.(fields := copy.fields.(itemSize := h.itemSize))
    case 3 => copy.(fields := copy.fields.(schema := h.schema))
    case 4 => copy.(fields := copy.fields.(timestamp := h.timestamp), timestampStored := TimestampStored(p))
    case _ => copy.(fields := copy.fields.(flags := h.flags), flagsStored := FlagsStored(p))
  }

  datatype State = State(h: Fields, ready: bool, count: nat, phase: Phase, clients: map<nat, Client>)

  const Fresh := State(Zeroed, false, 0, Filling, map[])

  datatype Step =
    | RingStore(h: Fields)                          // any store of the ring library
    | RingDone
    | RingRefuses
    | StoreHeaderSize
    | StoreSchema
    | StoreTimestamp
    | StoreFlags
    | StoreCount
    | StoreReady
    | CreatorLeaves
    | Begin(id: nat, e: Expected, counts: bool)
    | LoadMagic(id: nat)
    | LoadReady(id: nat)
    | Compare(id: nat)
    | Join(id: nat)
    | Leave(id: nat)
    | LookAgain(id: nat)                            // validate again, to report why
    | BeginRead(id: nat)
    | CopyNext(id: nat)

  // The three fields the ring library does not touch.
  predicate SameTags(h: Fields, h': Fields) {
    h'.schema == h.schema && h'.timestamp == h.timestamp && h'.flags == h.flags
  }

  function WithTags(h: Fields, tags: Fields): Fields {
    h.(schema := tags.schema, timestamp := tags.timestamp, flags := tags.flags)
  }

  predicate At(s: State, id: nat, st: Stage -> bool) { id in s.clients && st(s.clients[id].stage) }

  predicate Enabled(abi: Abi, r: Request, s: State, a: Step) {
    match a
    case RingStore(h) => s.phase == Filling && SameTags(s.h, h)
    case RingDone =>
      // what the ring library promises on success
      && s.phase == Filling && (r.itemSize != 0 ==> r.capacity % r.itemSize == 0)
      && s.h.(headerSize := abi.headerSize) == WithTags(Final(abi, r), s.h)
    case RingRefuses => s.phase == Filling
    case StoreHeaderSize => s.phase == Overriding
    case StoreSchema => s.phase == BeforeSchema
    case StoreTimestamp => s.phase == BeforeTimestamp
    case StoreFlags => s.phase == BeforeFlags
    case StoreCount => s.phase == Counting
    case StoreReady => s.phase == Publishing
    case CreatorLeaves => s.phase == Published
    case Begin(id, _, _) => id !in s.clients
    case LoadMagic(id) => At(s, id, (st: Stage) => st.AtMagic?)
    case LoadReady(id) => At(s, id, (st: Stage) => st.Spinning?)
    case Compare(id) => At(s, id, (st: Stage) => st.Checking? && st.n < Checks)
    case Join(id) =>
      At(s, id, (st: Stage) => st == Checking(Checks)) && s.clients[id].refused.None? && s.clients[id].reading.None?
    case Leave(id) => At(s, id, (st: Stage) => st.Joined?)
    case LookAgain(id) =>
      At(s, id, (st: Stage) => st.Refused?) && s.clients[id].refused.None? && s.clients[id].reading.None?
    case BeginRead(id) => id !in s.clients
    case CopyNext(id) => At(s, id, (st: Stage) => st.Copying? && st.k < Copies) && s.clients[id].reading.Some?
  }

  function WithStage(s: State, id: nat, st: Stage): State
    requires id in s.clients
  {
    s.(clients := s.clients[id := s.clients[id].(stage := st)])
  }

  function Apply(abi: Abi, r: Request, s: State, a: Step): State
    requires Enabled(abi, r, s, a)
  {
    match a
    case RingStore(h) => s.(h := h)
    case RingDone => s.(phase := Overriding)
    case RingRefuses => s.(phase := Failed)
    case StoreHeaderSize => s.(h := s.h.(headerSize := abi.headerSize), phase := BeforeSchema)
    case StoreSchema => s.(h := s.h.(schema := r.schema), phase := BeforeTimestamp)
    case StoreTimestamp => s.(h := s.h.(timestamp := r.timestamp), phase := BeforeFlags)
    case StoreFlags => s.(h := s.h.(flags := r.flags), phase := Counting)
    case StoreCount => s.(count := 1, phase := Publishing)
    case StoreReady => s.(ready := true, phase := Published)
    case CreatorLeaves => s.(count := (s.count - 1) % Wrap32, phase := Gone)
    case Begin(id, e, counts) => s.(clients := s.clients[id := Client(e, counts, s.ready, AtMagic, 0, None, None)])
    case LoadMagic(id) => WithStage(s, id, if s.h.magic != abi.magic then Refused(BadMagic) else Spinning(SpinLimit))
    case LoadReady(id) =>
      var c := s.clients[id];
      var st := if s.ready then Checking(0)
                else if c.stage.left - 1 <= 0 then Refused(NotReady)
                else Spinning(c.stage.left - 1);
      s.(clients := s.clients[id := c.(stage := st, loads := c.loads + 1)])
    case Compare(id) =>
      var c := s.clients[id];
      var error := Check(c.stage.n, abi, s.h, c.e);
      WithStage(s, id, if error != Ok then Refused(error) else Checking(c.stage.n + 1))
    case Join(id) =>
      WithStage(s, id, Joined).(count := if s.clients[id].counts then (s.count + 1) % Wrap32 else s.count)
    case Leave(id) =>
      WithStage(s, id, Left).(count := if s.clients[id].counts then (s.count - 1) % Wrap32 else s.count)
    case LookAgain(id) =>
      var c := s.clients[id];
      s.(clients := s.clients[id := c.(stage := AtMagic, loads := 0, refused := Some(c.stage.error))])
    case BeginRead(id) =>
      s.(clients := s.clients[id := Client(ExpectedOfCopy(Zeroed), false, s.ready, Copying(0), 0, None,
                                           Some(Copy(Zeroed, false, false)))])
    case CopyNext(id) =>
      var c := s.clients[id];
      var copy := CopyField(c.stage.k, c.reading.value, s.h, s.phase);
      s.(clients := s.clients[id := c.(stage := if c.stage.k + 1 < Copies then Copying(c.stage.k + 1) else AtMagic,
                                       e := ExpectedOfCopy(copy.fields), reading := Some(copy))])
  }

  predicate CanRun(abi: Abi, r: Request, s: State, run: seq<Step>)
    decreases |run|
  {
    run == [] || (Enabled(abi, r, s, run[0]) && CanRun(abi, r, Apply(abi, r, s, run[0]), run[1..]))
  }

  function After(abi: Abi, r: Request, s: State, run: seq<Step>): State
    requires CanRun(abi, r, s, run)
    decreases |run|
  {
    if run == [] then s else After(abi, r, Apply(abi, r, s, run[0]), run[1..])
  }

  // The endpoints whose construction is complete and which are not destroyed.
  ghost function Live(clients: map<nat, Client>): set<nat> {
    set i | i in clients && clients[i].counts && clients[i].stage.Joined?
  }

  ghost function CreatorLive(p: Phase): nat { if p == Publishing || p == Published then 1 else 0 }

  // The verdicts that a header still being written can cause.
  predicate Transient(error: Error) { error == BadMagic || error == NotReady }

  ghost predicate CreatorOk(abi: Abi, r: Request, s: State) {
    && s.ready == (s.phase == Published || s.phase == Gone)
    && s.h.schema == (if SchemaStored(s.phase) then r.schema else 0)
    && s.h.timestamp == (if TimestampStored(s.phase) then r.timestamp else 0)
    && s.h.flags == (if FlagsStored(s.phase) then r.flags else 0)
    && (s.phase == Overriding ==> s.h.(headerSize := abi.headerSize) == WithTags(Final(abi, r), s.h))
    && (s.phase == BeforeSchema || SchemaStored(s.phase) ==> s.h == WithTags(Final(abi, r), s.h))
  }

  ghost predicate VerdictOk(abi: Abi, r: Request, ready: bool, c: Client, error: Error) {
    && error != Ok
    && (!Transient(error) ==> ready && error == Validate(abi, Final(abi, r), c.e))
    && (Transient(error) ==> !c.late)
  }

  // A reader's copies of the creator's two fields are right if loaded after their stores, and zero
  // otherwise; and it expects what it copied.
  ghost predicate ReadingOk(r: Request, c: Client, copy: Copy) {
    var k := if c.stage.Copying? then c.stage.k else Copies;
    && c.e == ExpectedOfCopy(copy.fields)
    && (4 < k ==> copy.fields.timestamp == if copy.timestampStored then r.timestamp else 0)
    && (5 < k ==> copy.fields.flags == if copy.flagsStored then r.flags else 0)
    && (c.late ==> (4 < k ==> copy.timestampStored) && (5 < k ==> copy.flagsStored))
  }

  ghost predicate ClientOk(abi: Abi, r: Request, ready: bool, c: Client) {
    && c.loads <= SpinLimit
    && (c.late ==> ready)
    && (match c.stage
        case Copying(k) => k < Copies && c.loads == 0 && c.reading.Some? && c.refused.None?
        case AtMagic => c.loads == 0
        case Spinning(left) => 0 < left <= SpinLimit && c.loads == SpinLimit - left
        case Checking(n) =>
          n <= Checks && ready && Validate(abi, Final(abi, r), c.e) == ChecksFrom(n, abi, Final(abi, r), c.e)
        case Joined => ready && c.refused.None? && Validate(abi, Final(abi, r), c.e) == Ok
        case Left => ready && c.refused.None? && Validate(abi, Final(abi, r), c.e) == Ok
        case Refused(error) =>
          VerdictOk(abi, r, ready, c, error) && (error == NotReady ==> c.loads == SpinLimit))
    && (c.reading.Some? ==> ReadingOk(r, c, c.reading.value) && c.refused.None?)
    && (c.refused.Some? ==> VerdictOk(abi, r, ready, c, c.refused.value))
    && (c.refused.Some? && !Transient(c.refused.value) && c.stage.Refused? ==> !Transient(c.stage.error))
  }

  ghost predicate CountOk(s: State) {
    s.phase in {Publishing, Published, Gone} ==> s.count == (|Live(s.clients)| + CreatorLive(s.phase)) % Wrap32
  }

  ghost predicate Inv(abi: Abi, r: Request, s: State) {
    && CreatorOk(abi, r, s)
    && CountOk(s)
    && (forall i {:trigger ClientOk(abi, r, s.ready, s.clients[i])} ::
          i in s.clients ==> ClientOk(abi, r, s.ready, s.clients[i]))
  }

  predicate IsCreatorStep(a: Step) {
    || a.RingStore? || a.RingDone? || a.RingRefuses? || a.StoreHeaderSize? || a.StoreSchema? || a.StoreTimestamp?
    || a.StoreFlags? || a.StoreCount? || a.StoreReady? || a.CreatorLeaves?
  }

  lemma CreatorKeeps(abi: Abi, r: Request, s: State, a: Step)
    requires CreatorOk(abi, r, s) && Enabled(abi, r, s, a)
    ensures CreatorOk(abi, r, Apply(abi, r, s, a))
  {
    if !IsCreatorStep(a) {
      ClientsOnly(abi, r, s, a);
    }
  }

  lemma ClientsOnly(abi: Abi, r: Request, s: State, a: Step)
    requires Enabled(abi, r, s, a) && !IsCreatorStep(a)
    ensures var s' := Apply(abi, r, s, a); s'.h == s.h && s'.ready == s.ready && s'.phase == s.phase
  {}

  // What publication does to a client that makes no step.
  lemma ClientWaits(abi: Abi, r: Request, ready: bool, ready': bool, c: Client)
    requires ClientOk(abi, r, ready, c) && (ready ==> ready')
    ensures ClientOk(abi, r, ready', c)
  {}

  // A client's own steps.
  lemma CopyKeeps(abi: Abi, r: Request, s: State, i: nat)
    requires CreatorOk(abi, r, s) && Enabled(abi, r, s, CopyNext(i)) && ClientOk(abi, r, s.ready, s.clients[i])
    ensures ClientOk(abi, r, s.ready, Apply(abi, r, s, CopyNext(i)).clients[i])
  {}

  lemma LoadKeeps(abi: Abi, r: Request, s: State, a: Step, i: nat)
    requires CreatorOk(abi, r, s) && Enabled(abi, r, s, a) && a in {LoadMagic(i), LoadReady(i), Compare(i)}
    requires ClientOk(abi, r, s.ready, s.clients[i])
    ensures ClientOk(abi, r, s.ready, Apply(abi, r, s, a).clients[i])
  {
    ChecksAll(0, abi, Final(abi, r), s.clients[i].e);
    if a == Compare(i) {
      ChecksAll(s.clients[i].stage.n, abi, Final(abi, r), s.clients[i].e);
    }
  }

  lemma SettleKeeps(abi: Abi, r: Request, s: State, a: Step, i: nat)
    requires CreatorOk(abi, r, s) && Enabled(abi, r, s, a) && a in {Join(i), Leave(i), LookAgain(i)}
    requires ClientOk(abi, r, s.ready, s.clients[i])
    ensures ClientOk(abi, r, s.ready, Apply(abi, r, s, a).clients[i])
  {}

  predicate IsStepOf(a: Step, i: nat) {
    a in {LoadMagic(i), LoadReady(i), Compare(i), Join(i), Leave(i), LookAgain(i), CopyNext(i)}
  }

  lemma ClientKeeps(abi: Abi, r: Request, s: State, a: Step, i: nat)
    requires CreatorOk(abi, r, s) && Enabled(abi, r, s, a)
    requires i in s.clients ==> ClientOk(abi, r, s.ready, s.clients[i])
    requires i in Apply(abi, r, s, a).clients
    ensures ClientOk(abi, r, Apply(abi, r, s, a).ready, Apply(abi, r, s, a).clients[i])
  {
    var s' := Apply(abi, r, s, a);
    if a == CopyNext(i) {
      CopyKeeps(abi, r, s, i);
    } else if a in {LoadMagic(i), LoadReady(i), Compare(i)} {
      LoadKeeps(abi, r, s, a, i);
    } else if a in {Join(i), Leave(i), LookAgain(i)} {
      SettleKeeps(abi, r, s, a, i);
    } else if i in s.clients {
      OthersUntouched(abi, r, s, a, i);
      ClientWaits(abi, r, s.ready, s'.ready, s.clients[i]);
    }
  }

  lemma OthersUntouched(abi: Abi, r: Request, s: State, a: Step, i: nat)
    requires Enabled(abi, r, s, a) && i in s.clients && !IsStepOf(a, i)
    ensures i in Apply(abi, r, s, a).clients && Apply(abi, r, s, a).clients[i] == s.clients[i]
    ensures s.ready ==> Apply(abi, r, s, a).ready
  {}

  lemma LiveSame(clients: map<nat, Client>, id: nat, c: Client)
    requires (id in clients && clients[id].counts && clients[id].stage.Joined?) == (c.counts && c.stage.Joined?)
    ensures Live(clients[id := c]) == Live(clients)
  {}

  lemma LiveAdded(clients: map<nat, Client>, id: nat, c: Client)
    requires id !in Live(clients) && c.counts && c.stage.Joined?
    ensures |Live(clients[id := c])| == |Live(clients)| + 1
  {
    assert Live(clients[id := c]) == Live(clients) + {id};
  }

  lemma LiveRemoved(clients: map<nat, Client>, id: nat, c: Client)
    requires id in Live(clients) && !(c.counts && c.stage.Joined?)
    ensures |Live(clients[id := c])| == |Live(clients)| - 1
  {
    assert Live(clients[id := c]) == Live(clients) - {id};
  }

  lemma Wrap(n: nat)
    ensures (n % Wrap32 + 1) % Wrap32 == (n + 1) % Wrap32
    ensures 0 < n ==> (n % Wrap32 - 1) % Wrap32 == (n - 1) % Wrap32
  {}

  // The steps of the clients.
  lemma ClientCounts(abi: Abi, r: Request, s: State, a: Step, id: nat)
    requires CountOk(s) && Enabled(abi, r, s, a)
    requires a in {LoadMagic(id), LoadReady(id), Compare(id), LookAgain(id), CopyNext(id)}
    ensures CountOk(Apply(abi, r, s, a))
  {
    LiveSame(s.clients, id, Apply(abi, r, s, a).clients[id]);
  }

  lemma JoinCounts(abi: Abi, r: Request, s: State, id: nat)
    requires CountOk(s) && Enabled(abi, r, s, Join(id))
    ensures CountOk(Apply(abi, r, s, Join(id)))
  {
    var c := s.clients[id].(stage := Joined);
    if c.counts {
      LiveAdded(s.clients, id, c);
      Wrap(|Live(s.clients)| + CreatorLive(s.phase));
    } else {
      LiveSame(s.clients, id, c);
    }
  }

  lemma LeaveCounts(abi: Abi, r: Request, s: State, id: nat)
    requires CountOk(s) && Enabled(abi, r, s, Leave(id))
    ensures CountOk(Apply(abi, r, s, Leave(id)))
  {
    var c := s.clients[id].(stage := Left);
    if c.counts {
      assert id in Live(s.clients);
      LiveRemoved(s.clients, id, c);
      Wrap(|Live(s.clients)| + CreatorLive(s.phase));
    } else {
      LiveSame(s.clients, id, c);
    }
  }

  // Whoever has joined can leave, the creator too, and the count falls by one for each that counts.
  lemma MembersCanLeave(abi: Abi, r: Request, s: State, id: nat)
    ensures At(s, id, (st: Stage) => st.Joined?) ==>
              && Enabled(abi, r, s, Leave(id)) && Apply(abi, r, s, Leave(id)).clients[id].stage == Left
              && (s.clients[id].counts && 0 < s.count < Wrap32 ==> Apply(abi, r, s, Leave(id)).count == s.count - 1)
              && (!s.clients[id].counts ==> Apply(abi, r, s, Leave(id)).count == s.count)
    ensures s.phase == Published ==>
              && Enabled(abi, r, s, CreatorLeaves)
              && (0 < s.count < Wrap32 ==> Apply(abi, r, s, CreatorLeaves).count == s.count - 1)
    ensures s.phase == Filling ==> Enabled(abi, r, s, RingRefuses) && Apply(abi, r, s, RingRefuses).phase == Failed
  {}

  // Nobody has joined a segment that is not ready.
  lemma NobodyLiveBefore(abi: Abi, r: Request, s: State)
    requires Inv(abi, r, s) && !s.ready
    ensures Live(s.clients) == {}
  {
    forall i | i in s.clients ensures !s.clients[i].stage.Joined? {
      assert ClientOk(abi, r, s.ready, s.clients[i]);
    }
  }

  lemma CountKeeps(abi: Abi, r: Request, s: State, a: Step)
    requires CountOk(s) && Enabled(abi, r, s, a) && (a.StoreCount? ==> Live(s.clients) == {})
    ensures CountOk(Apply(abi, r, s, a))
  {
    match a
    case Begin(id, e, counts) => LiveSame(s.clients, id, Client(e, counts, s.ready, AtMagic, 0, None, None));
    case LoadMagic(id) => ClientCounts(abi, r, s, a, id);
    case LoadReady(id) => ClientCounts(abi, r, s, a, id);
    case Compare(id) => ClientCounts(abi, r, s, a, id);
    case LookAgain(id) => ClientCounts(abi, r, s, a, id);
    case CopyNext(id) => ClientCounts(abi, r, s, a, id);
    case BeginRead(id) => LiveSame(s.clients, id, Apply(abi, r, s, a).clients[id]);
    case Join(id) => JoinCounts(abi, r, s, id);
    case Leave(id) => LeaveCounts(abi, r, s, id);
    case CreatorLeaves => Wrap(|Live(s.clients)| + 1);
    case _ =>
  }

  lemma StepKeepsInvariant(abi: Abi, r: Request, s: State, a: Step)
    requires Inv(abi, r, s) && Enabled(abi, r, s, a)
    ensures Inv(abi, r, Apply(abi, r, s, a))
  {
    CreatorKeeps(abi, r, s, a);
    if a.StoreCount? {
      NobodyLiveBefore(abi, r, s);
    }
    CountKeeps(abi, r, s, a);
    var s' := Apply(abi, r, s, a);
    forall i | i in s'.clients
      ensures ClientOk(abi, r, s'.ready, s'.clients[i])
    {
      ClientKeeps(abi, r, s, a, i);
    }
  }

  lemma {:induction false} InvariantHolds(abi: Abi, r: Request, s: State, run: seq<Step>)
    requires Inv(abi, r, s) && CanRun(abi, r, s, run)
    ensures Inv(abi, r, After(abi, r, s, run))
    decreases |run|
  {
    if run != [] {
      StepKeepsInvariant(abi, r, s, run[0]);
      InvariantHolds(abi, r, Apply(abi, r, s, run[0]), run[1..]);
    }
  }

  // Over every interleaving: a client joins only a published segment whose final header it is
  // compatible with, and then every header field holds its final value; every other verdict that
  // is not about an unfinished header is the one the final header gives; and is_ready is loaded
  // at most a million times, all of them before giving up.
  lemma ValidationIsOfFinalHeader(abi: Abi, r: Request, run: seq<Step>, id: nat)
    requires CanRun(abi, r, Fresh, run) && id in After(abi, r, Fresh, run).clients
    ensures var s := After(abi, r, Fresh, run);
            var c := s.clients[id];
            && c.loads <= SpinLimit
            && (Passed(c) ==> s.ready && s.h == Final(abi, r) && Compatible(abi, s.h, c.e))
            && (c.stage.Refused? && !Transient(c.stage.error) ==>
                  && s.ready && s.h == Final(abi, r)
                  && c.stage.error == Validate(abi, s.h, c.e) && !Compatible(abi, s.h, c.e))
            && (c.stage == Refused(NotReady) ==> c.loads == SpinLimit)
  {
    InvariantHolds(abi, r, Fresh, run);
    var s := After(abi, r, Fresh, run);
    VerdictMeans(abi, r, s.ready, s.clients[id]);
    if s.ready {
      ReadyIsFinal(abi, r, s);
    }
  }

  // Validation has found nothing wrong.
  predicate Passed(c: Client) { c.stage.Joined? || c.stage.Left? || c.stage == Checking(Checks) }

  lemma ReadyIsFinal(abi: Abi, r: Request, s: State)
    requires CreatorOk(abi, r, s) && s.ready
    ensures s.h == Final(abi, r)
  {}

  lemma VerdictMeans(abi: Abi, r: Request, ready: bool, c: Client)
    requires ClientOk(abi, r, ready, c)
    ensures Passed(c) ==> ready && Compatible(abi, Final(abi, r), c.e)
    ensures c.stage.Refused? && (c.late || !Transient(c.stage.error)) ==>
              && ready && c.stage.error == Validate(abi, Final(abi, r), c.e)
              && !Compatible(abi, Final(abi, r), c.e)
  {
    ValidateIsCompatible(abi, Final(abi, r), c.e);
  }

  // A client that starts once the header is published is accepted exactly when it is compatible.
  lemma LateClientIsExact(abi: Abi, r: Request, run: seq<Step>, id: nat)
    requires CanRun(abi, r, Fresh, run) && id in After(abi, r, Fresh, run).clients
    requires After(abi, r, Fresh, run).clients[id].late
    ensures var c := After(abi, r, Fresh, run).clients[id];
            && (Passed(c) ==> Compatible(abi, Final(abi, r), c.e))
            && (c.stage.Refused? ==>
                  c.stage.error == Validate(abi, Final(abi, r), c.e) && !Compatible(abi, Final(abi, r), c.e))
  {
    InvariantHolds(abi, r, Fresh, run);
    var s := After(abi, r, Fresh, run);
    VerdictMeans(abi, r, s.ready, s.clients[id]);
  }

  // What a reader whose validation passes has copied, in every run: layout, item size, schema and
  // alignment are the creator's; each of the two fields that nothing compares is the creator's if and
  // only if it was loaded after its store or the creator's value is zero, which is what the field held
  // before. A reader that starts after publication has them all.
  lemma ReaderCopies(abi: Abi, r: Request, run: seq<Step>, id: nat)
    requires CanRun(abi, r, Fresh, run) && id in After(abi, r, Fresh, run).clients
    requires var c := After(abi, r, Fresh, run).clients[id]; c.reading.Some? && Passed(c)
    ensures var s := After(abi, r, Fresh, run);
            var c := s.clients[id];
            var copy := c.reading.value;
            && s.ready && s.h == Final(abi, r) && IsPowerOfTwo(s.h.alignment)
            && copy.fields.layout == r.layout && copy.fields.itemSize == r.itemSize && copy.fields.schema == r.schema
            && DefaultAlignment(copy.fields.alignment) == s.h.alignment
            && (copy.fields.timestamp == r.timestamp <==> copy.timestampStored || r.timestamp == 0)
            && (copy.fields.flags == r.flags <==> copy.flagsStored || r.flags == 0)
            && (c.late ==> copy.timestampStored && copy.flagsStored)
  {
    InvariantHolds(abi, r, Fresh, run);
    var s := After(abi, r, Fresh, run);
    VerdictMeans(abi, r, s.ready, s.clients[id]);
    ReadyIsFinal(abi, r, s);
    assert ReadingOk(r, s.clients[id], s.clients[id].reading.value);
    assert DefaultAlignment(DefaultAlignment(s.clients[id].reading.value.fields.alignment))
        == DefaultAlignment(s.clients[id].reading.value.fields.alignment);
  }

  // After publication attach_count is the number of live endpoints, the creator among them:
  // observers and refused clients never show in it.
  lemma AttachCountIsLive(abi: Abi, r: Request, run: seq<Step>)
    requires CanRun(abi, r, Fresh, run) && After(abi, r, Fresh, run).ready
    ensures var s := After(abi, r, Fresh, run);
            s.count == (|Live(s.clients)| + CreatorLive(s.phase)) % Wrap32
  {
    InvariantHolds(abi, r, Fresh, run);
  }

  // A creator whose initialisation is refused never publishes, and nobody joins.
  lemma RefusedCreatorIsNeverJoined(abi: Abi, r: Request, run: seq<Step>, id: nat)
    requires CanRun(abi, r, Fresh, run) && After(abi, r, Fresh, run).phase == Failed
    requires id in After(abi, r, Fresh, run).clients
    ensures var c := After(abi, r, Fresh, run).clients[id];
            c.stage.Copying? || c.stage.AtMagic? || c.stage.Spinning? || (c.stage.Refused? && Transient(c.stage.error))
  {
    InvariantHolds(abi, r, Fresh, run);
    var s := After(abi, r, Fresh, run);
    assert ClientOk(abi, r, s.ready, s.clients[id]);
  }

  // ---------------------------------------------------------------------
  // The error that is reported
  // ---------------------------------------------------------------------

  // The second look of a refused client is over.
  predicate LookedAgain(c: Client) { c.refused.Some? && (c.stage.Refused? || c.stage == Checking(Checks)) }

  function Reported(c: Client): Error
    requires LookedAgain(c)
  {
    if c.stage.Refused? then c.stage.error else Ok
  }

  // A refused client validates once more to find out why. It reports the verdict that refused it
  // whenever that was not about an unfinished header.
  lemma SecondLookAgrees(abi: Abi, r: Request, run: seq<Step>, id: nat)
    requires CanRun(abi, r, Fresh, run) && id in After(abi, r, Fresh, run).clients
    requires LookedAgain(After(abi, r, Fresh, run).clients[id])
    ensures var c := After(abi, r, Fresh, run).clients[id];
            !Transient(c.refused.value) ==> Reported(c) == c.refused.value
  {
    InvariantHolds(abi, r, Fresh, run);
    var s := After(abi, r, Fresh, run);
    assert ClientOk(abi, r, s.ready, s.clients[id]);
  }

  lemma {:induction false} RunConcat(abi: Abi, r: Request, s: State, one: seq<Step>, two: seq<Step>)
    requires CanRun(abi, r, s, one) && CanRun(abi, r, After(abi, r, s, one), two)
    ensures CanRun(abi, r, s, one + two)
    ensures After(abi, r, s, one + two) == After(abi, r, After(abi, r, s, one), two)
    decreases |one|
  {
    if one == [] {
      assert one + two == two;
    } else {
      assert (one + two)[0] == one[0] && (one + two)[1..] == one[1..] + two;
      RunConcat(abi, r, Apply(abi, r, s, one[0]), one[1..], two);
    }
  }

  // Creating a segment without anyone looking, with a stop after the schema is stored.
  function UpToSchema(abi: Abi, r: Request): seq<Step> {
    [RingStore(Final(abi, r).(schema := 0, timestamp := 0, flags := 0)), RingDone, StoreHeaderSize, StoreSchema]
  }

  const AfterSchema := [StoreTimestamp, StoreFlags, StoreCount, StoreReady]

  predicate Untagged(h: Fields) { h.schema == 0 && h.timestamp == 0 && h.flags == 0 }

  lemma SchemaRuns(abi: Abi, r: Request, s: State)
    requires s.phase == Filling && Untagged(s.h) && (r.itemSize != 0 ==> r.capacity % r.itemSize == 0)
    ensures CanRun(abi, r, s, UpToSchema(abi, r))
    ensures After(abi, r, s, UpToSchema(abi, r)) ==
            s.(h := Final(abi, r).(timestamp := 0, flags := 0), phase := BeforeTimestamp)
  {
    var s1 := s.(h := Final(abi, r).(schema := 0, timestamp := 0, flags := 0));
    var run := UpToSchema(abi, r);
    OneStep(abi, r, s, run);
    OneStep(abi, r, s1, run[1..]);
    OneStep(abi, r, s1.(phase := Overriding), run[2..]);
    OneStep(abi, r, s1.(phase := BeforeSchema), run[3..]);
  }

  lemma PublishRuns(abi: Abi, r: Request, s: State)
    requires s.phase == BeforeTimestamp && s.h == Final(abi, r).(timestamp := 0, flags := 0)
    ensures CanRun(abi, r, s, AfterSchema)
    ensures After(abi, r, s, AfterSchema) == s.(h := Final(abi, r), ready := true, count := 1, phase := Published)
  {
    var s1 := s.(h := Final(abi, r).(flags := 0), phase := BeforeFlags);
    var s2 := s.(h := Final(abi, r), phase := Counting);
    OneStep(abi, r, s, AfterSchema);
    OneStep(abi, r, s1, AfterSchema[1..]);
    OneStep(abi, r, s2, AfterSchema[2..]);
    OneStep(abi, r, s2.(count := 1, phase := Publishing), AfterSchema[3..]);
  }

  function CreatorRun(abi: Abi, r: Request): seq<Step> { UpToSchema(abi, r) + AfterSchema }

  lemma CreatorRuns(abi: Abi, r: Request, s: State)
    requires s.phase == Filling && Untagged(s.h) && (r.itemSize != 0 ==> r.capacity % r.itemSize == 0)
    ensures CanRun(abi, r, s, CreatorRun(abi, r))
    ensures After(abi, r, s, CreatorRun(abi, r)) ==
            s.(h := Final(abi, r), ready := true, count := 1, phase := Published)
  {
    SchemaRuns(abi, r, s);
    PublishRuns(abi, r, After(abi, r, s, UpToSchema(abi, r)));
    RunConcat(abi, r, s, UpToSchema(abi, r), AfterSchema);
  }

  lemma OneStep(abi: Abi, r: Request, s: State, run: seq<Step>)
    requires run != [] && Enabled(abi, r, s, run[0])
    ensures CanRun(abi, r, s, run) <==> CanRun(abi, r, Apply(abi, r, s, run[0]), run[1..])
    ensures CanRun(abi, r, s, run) ==>
              After(abi, r, s, run) == After(abi, r, Apply(abi, r, s, run[0]), run[1..])
  {}

  function Repeat(a: Step, n: nat): seq<Step> { seq(n, i => a) }

  // k loads of is_ready that all find it clear.
  lemma {:induction false} SpinRun(abi: Abi, r: Request, s: State, id: nat, k: nat)
    requires !s.ready && id in s.clients && s.clients[id].stage.Spinning?
    requires k <= s.clients[id].stage.left
    ensures CanRun(abi, r, s, Repeat(LoadReady(id), k))
    ensures var c := s.clients[id];
            After(abi, r, s, Repeat(LoadReady(id), k)) ==
            (if k == 0 then s
             else s.(clients := s.clients[id := c.(
                       stage := if k < c.stage.left then Spinning(c.stage.left - k) else Refused(NotReady),
                       loads := c.loads + k)]))
    decreases k
  {
    if k != 0 {
      var s1 := Apply(abi, r, s, LoadReady(id));
      var run := Repeat(LoadReady(id), k);
      assert run[1..] == Repeat(LoadReady(id), k - 1);
      OneStep(abi, r, s, run);
      if k != 1 {
        SpinRun(abi, r, s1, id, k - 1);
      }
    }
  }

  lemma CompareStep(abi: Abi, r: Request, s: State, id: nat, n: nat)
    requires id in s.clients && n < Checks && Compatible(abi, s.h, s.clients[id].e)
    ensures Enabled(abi, r, WithStage(s, id, Checking(n)), Compare(id))
    ensures Apply(abi, r, WithStage(s, id, Checking(n)), Compare(id)) == WithStage(s, id, Checking(n + 1))
  {
    ValidateIsCompatible(abi, s.h, s.clients[id].e);
    ChecksUnfold(abi, s.h, s.clients[id].e);
    assert Check(n, abi, s.h, s.clients[id].e) == Ok;
    StageTwice(s, id, Checking(n), Checking(n + 1));
  }

  lemma StageTwice(s: State, id: nat, one: Stage, two: Stage)
    requires id in s.clients
    ensures WithStage(WithStage(s, id, one), id, two) == WithStage(s, id, two)
    ensures s.clients[id].stage == one ==> WithStage(s, id, one) == s
  {}

  // The comparisons from the n-th on, of a client compatible with the header.
  lemma {:induction false} CompareRun(abi: Abi, r: Request, s: State, id: nat, n: nat)
    requires id in s.clients && n <= Checks && Compatible(abi, s.h, s.clients[id].e)
    ensures var run := Repeat(Compare(id), Checks - n);
            && CanRun(abi, r, WithStage(s, id, Checking(n)), run)
            && After(abi, r, WithStage(s, id, Checking(n)), run) == WithStage(s, id, Checking(Checks))
    decreases Checks - n
  {
    if n < Checks {
      var run := Repeat(Compare(id), Checks - n);
      CompareStep(abi, r, s, id, n);
      CompareRun(abi, r, s, id, n + 1);
      assert run[1..] == Repeat(Compare(id), Checks - (n + 1));
      OneStep(abi, r, WithStage(s, id, Checking(n)), run);
    }
  }

  // A compatible client that looks at a published header passes.
  lemma LookRun(abi: Abi, r: Request, s: State, id: nat) returns (run: seq<Step>)
    requires s.ready && id in s.clients && s.clients[id].stage == AtMagic && Compatible(abi, s.h, s.clients[id].e)
    ensures CanRun(abi, r, s, run)
    ensures var c := s.clients[id];
            After(abi, r, s, run) ==
            s.(clients := s.clients[id := c.(stage := Checking(Checks), loads := c.loads + 1)])
  {
    var s1 := Apply(abi, r, s, LoadMagic(id));
    var s2 := Apply(abi, r, s1, LoadReady(id));
    var checks := Repeat(Compare(id), Checks);
    run := [LoadMagic(id), LoadReady(id)] + checks;
    assert run[1..] == [LoadReady(id)] + checks && run[1..][1..] == checks;
    OneStep(abi, r, s, run);
    OneStep(abi, r, s1, run[1..]);
    StageTwice(s2, id, Checking(0), Checking(Checks));
    CompareRun(abi, r, s2, id, 0);
  }

  // A compatible endpoint that comes to a published segment joins it and is counted, and a compatible
  // observer joins without being counted; nothing else about the segment changes.
  lemma CompatibleClientJoins(abi: Abi, r: Request, s: State, id: nat, e: Expected, counts: bool)
    returns (run: seq<Step>)
    requires s.ready && id !in s.clients && Compatible(abi, s.h, e)
    ensures CanRun(abi, r, s, run)
    ensures After(abi, r, s, run) ==
            s.(clients := s.clients[id := Client(e, counts, true, Joined, 1, None, None)],
               count := if counts then (s.count + 1) % Wrap32 else s.count)
  {
    var c := Client(e, counts, true, AtMagic, 0, None, None);
    var begin := [Begin(id, e, counts)];
    OneStep(abi, r, s, begin);
    var s1 := s.(clients := s.clients[id := c]);
    var look := LookRun(abi, r, s1, id);
    RunConcat(abi, r, s, begin, look);
    var c2 := c.(stage := Checking(Checks), loads := 1);
    var s2 := s.(clients := s.clients[id := c2]);
    assert s1.clients[id := c2] == s2.clients;
    assert After(abi, r, s1, look) == s2;
    var join := [Join(id)];
    OneStep(abi, r, s2, join);
    RunConcat(abi, r, s, begin + look, join);
    assert s2.clients[id := c2.(stage := Joined)] == s.clients[id := c2.(stage := Joined)];
    run := begin + look + join;
  }

  // A client refused because of an unfinished header, whose segment is then finished, finds
  // nothing wrong with it.
  lemma FinishedMeanwhile(abi: Abi, r: Request, s: State, id: nat) returns (run: seq<Step>)
    requires s.phase == Filling && Untagged(s.h) && !s.ready
    requires id in s.clients && s.clients[id].stage.Refused? && s.clients[id].refused.None?
    requires s.clients[id].reading.None?
    requires Compatible(abi, Final(abi, r), s.clients[id].e)
    ensures CanRun(abi, r, s, run)
    ensures var c := After(abi, r, s, run).clients;
            && id in c && LookedAgain(c[id])
            && c[id].e == s.clients[id].e
            && c[id].refused == Some(s.clients[id].stage.error) && Reported(c[id]) == Ok
  {
    CreatorRuns(abi, r, s);
    var created := CreatorRun(abi, r);
    var s1 := After(abi, r, s, created);
    var s2 := Apply(abi, r, s1, LookAgain(id));
    var look := LookRun(abi, r, s2, id);
    var rest := [LookAgain(id)] + look;
    assert rest[1..] == look;
    OneStep(abi, r, s1, rest);
    RunConcat(abi, r, s, created, rest);
    run := created + rest;
  }

  // So for each of the two verdicts about an unfinished header there are runs in which the error
  // reported for a refused client is "ok".
  lemma ReportCanSayOk(abi: Abi, r: Request, e: Expected, error: Error) returns (run: seq<Step>)
    requires abi.magic != 0 && Compatible(abi, Final(abi, r), e) && Transient(error)
    ensures CanRun(abi, r, Fresh, run)
    ensures var c := After(abi, r, Fresh, run).clients;
            0 in c && c[0].e == e && LookedAgain(c[0]) && c[0].refused == Some(error) && Reported(c[0]) == Ok
  {
    var first := RefusedRun(abi, r, e, error);
    var rest := FinishedMeanwhile(abi, r, After(abi, r, Fresh, first), 0);
    RunConcat(abi, r, Fresh, first, rest);
    run := first + rest;
  }

  // In this run a client expecting e is refused with the verdict v and then reports "ok".
  ghost predicate RefusedThenOk(abi: Abi, r: Request, run: seq<Step>, id: nat, e: Expected, v: Error) {
    && CanRun(abi, r, Fresh, run)
    && var c := After(abi, r, Fresh, run).clients;
       id in c && c[id].e == e && LookedAgain(c[id]) && c[id].refused == Some(v) && Reported(c[id]) == Ok
  }

  // Which is possible exactly when the verdict was about an unfinished header and the client is
  // compatible with the finished one.
  lemma ReportsOkExactly(abi: Abi, r: Request, e: Expected, v: Error)
    requires abi.magic != 0
    ensures (exists run, id :: RefusedThenOk(abi, r, run, id, e, v)) <==>
              Transient(v) && Compatible(abi, Final(abi, r), e)
  {
    if Transient(v) && Compatible(abi, Final(abi, r), e) {
      var run := ReportCanSayOk(abi, r, e, v);
      assert RefusedThenOk(abi, r, run, 0, e, v);
    }
    forall run, id | RefusedThenOk(abi, r, run, id, e, v)
      ensures Transient(v) && Compatible(abi, Final(abi, r), e)
    {
      InvariantHolds(abi, r, Fresh, run);
      var s := After(abi, r, Fresh, run);
      assert ClientOk(abi, r, s.ready, s.clients[id]);
      SecondLookAgrees(abi, r, run, id);
      ValidationIsOfFinalHeader(abi, r, run, id);
    }
  }

  // Getting refused: by looking before the magic number is there, or by waiting in vain.
  lemma RefusedRun(abi: Abi, r: Request, e: Expected, error: Error) returns (run: seq<Step>)
    requires abi.magic != 0 && Transient(error)
    ensures CanRun(abi, r, Fresh, run)
    ensures var s := After(abi, r, Fresh, run);
            && s.phase == Filling && Untagged(s.h) && !s.ready
            && 0 in s.clients && s.clients[0].e == e && s.clients[0].stage == Refused(error)
            && s.clients[0].refused.None? && s.clients[0].reading.None?
  {
    if error == BadMagic {
      run := [Begin(0, e, true), LoadMagic(0)];
      OneStep(abi, r, Fresh, run);
      OneStep(abi, r, Fresh.(clients := map[0 := Client(e, true, false, AtMagic, 0, None, None)]), run[1..]);
    } else {
      var one, s := WaitingRun(abi, r, e);
      var spins := Repeat(LoadReady(0), SpinLimit);
      SpinRun(abi, r, s, 0, SpinLimit);
      RunConcat(abi, r, Fresh, one, spins);
      run := one + spins;
    }
  }

  lemma WaitingRun(abi: Abi, r: Request, e: Expected) returns (run: seq<Step>, s: State)
    ensures CanRun(abi, r, Fresh, run) && After(abi, r, Fresh, run) == s
    ensures s == Fresh.(h := Zeroed.(magic := abi.magic),
                        clients := map[0 := Client(e, true, false, Spinning(SpinLimit), 0, None, None)])
  {
    var c := Client(e, true, false, AtMagic, 0, None, None);
    var s1 := Fresh.(clients := map[0 := c]);
    var s2 := s1.(h := Zeroed.(magic := abi.magic));
    s := s2.(clients := map[0 := c.(stage := Spinning(SpinLimit))]);
    run := [Begin(0, e, true), RingStore(s2.h), LoadMagic(0)];
    OneStep(abi, r, Fresh, run);
    OneStep(abi, r, s1, run[1..]);
    OneStep(abi, r, s2, run[2..]);
  }

  // ---------------------------------------------------------------------
  // A stale copy
  // ---------------------------------------------------------------------

  function ReaderAt(s: State, id: nat, f: Fields, k: nat): State {
    s.(clients := s.clients[id := Client(ExpectedOfCopy(f), false, s.ready, if k < Copies then Copying(k) else AtMagic,
                                         0, None, Some(Copy(f, false, false)))])
  }

  lemma CopyStep(abi: Abi, r: Request, s: State, id: nat, f: Fields, k: nat)
    requires id !in s.clients && s.phase == BeforeTimestamp && k < Copies
    ensures Enabled(abi, r, ReaderAt(s, id, f, k), CopyNext(id))
    ensures Apply(abi, r, ReaderAt(s, id, f, k), CopyNext(id)) ==
            ReaderAt(s, id, CopyField(k, Copy(f, false, false), s.h, s.phase).fields, k + 1)
  {
    var g := CopyField(k, Copy(f, false, false), s.h, s.phase).fields;
    var c := ReaderAt(s, id, g, k + 1).clients[id];
    assert ReaderAt(s, id, f, k).clients[id := c] == s.clients[id := c];
  }

  // The fields from the k-th on are the header's, those before it are kept.
  ghost predicate Copied(f: Fields, f': Fields, h: Fields, k: nat) {
    && f'.layout == (if k <= 0 then h else f).layout && f'.alignment == (if k <= 1 then h else f).alignment
    && f'.itemSize == (if k <= 2 then h else f).itemSize && f'.schema == (if k <= 3 then h else f).schema
    && f'.timestamp == (if k <= 4 then h else f).timestamp && f'.flags == (if k <= 5 then h else f).flags
  }

  lemma CopiedStep(f: Fields, f': Fields, h: Fields, p: Phase, k: nat)
    requires k < Copies && Copied(CopyField(k, Copy(f, false, false), h, p).fields, f', h, k + 1)
    ensures Copied(f, f', h, k)
  {
    match k
    case 0 =>
    case 1 =>
    case 2 =>
    case 3 =>
    case 4 =>
    case _ =>
  }

  // Copying the rest of the six fields.
  lemma {:induction false} CopyRest(abi: Abi, r: Request, s: State, id: nat, f: Fields, k: nat) returns (f': Fields)
    requires id !in s.clients && s.phase == BeforeTimestamp && k <= Copies
    ensures var run := Repeat(CopyNext(id), Copies - k);
            && CanRun(abi, r, ReaderAt(s, id, f, k), run)
            && After(abi, r, ReaderAt(s, id, f, k), run) == ReaderAt(s, id, f', Copies)
    ensures Copied(f, f', s.h, k)
    decreases Copies - k
  {
    if k == Copies {
      f' := f;
    } else {
      var run := Repeat(CopyNext(id), Copies - k);
      CopyStep(abi, r, s, id, f, k);
      f' := CopyRest(abi, r, s, id, CopyField(k, Copy(f, false, false), s.h, s.phase).fields, k + 1);
      CopiedStep(f, f', s.h, s.phase, k);
      assert run[1..] == Repeat(CopyNext(id), Copies - (k + 1));
      OneStep(abi, r, ReaderAt(s, id, f, k), run);
    }
  }

  lemma CopyRuns(abi: Abi, r: Request, s: State, id: nat) returns (run: seq<Step>, f: Fields)
    requires id !in s.clients && s.phase == BeforeTimestamp
    ensures CanRun(abi, r, s, run) && After(abi, r, s, run) == ReaderAt(s, id, f, Copies)
    ensures f.layout == s.h.layout && f.alignment == s.h.alignment && f.itemSize == s.h.itemSize
    ensures f.schema == s.h.schema && f.timestamp == s.h.timestamp && f.flags == s.h.flags
  {
    f := CopyRest(abi, r, s, id, Zeroed, 0);
    run := [BeginRead(id)] + Repeat(CopyNext(id), Copies);
    assert run[1..] == Repeat(CopyNext(id), Copies);
    OneStep(abi, r, s, run);
    assert Apply(abi, r, s, BeginRead(id)) == ReaderAt(s, id, Zeroed, 0);
  }

  // The creator stores the schema; a reader copies the fields; the creator goes on and publishes; the
  // reader validates. It passes, with zeros for the timestamp and the flags.
  lemma StaleRun(abi: Abi, r: Request) returns (run: seq<Step>)
    requires IsPowerOfTwo(DefaultAlignment(r.alignment)) && (r.itemSize != 0 ==> r.capacity % r.itemSize == 0)
    ensures CanRun(abi, r, Fresh, run)
    ensures var clients := After(abi, r, Fresh, run).clients;
            && 0 in clients && clients[0].reading.Some? && Passed(clients[0])
            && clients[0].reading.value.fields.timestamp == 0 && clients[0].reading.value.fields.flags == 0
  {
    SchemaRuns(abi, r, Fresh);
    var one := UpToSchema(abi, r);
    var s1 := After(abi, r, Fresh, one);
    var two, f := CopyRuns(abi, r, s1, 0);
    RunConcat(abi, r, Fresh, one, two);
    var s2 := After(abi, r, s1, two);
    PublishRuns(abi, r, s2);
    RunConcat(abi, r, Fresh, one + two, AfterSchema);
    var s3 := After(abi, r, s2, AfterSchema);
    var four := LookRun(abi, r, s3, 0);
    RunConcat(abi, r, Fresh, one + two + AfterSchema, four);
    run := one + two + AfterSchema + four;
  }
}
