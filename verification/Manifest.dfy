/**
The manifest of a shared-memory channel: how options become a segment header and how a process
that knows only the path gets the options back (include/xproc/ipc/options.hpp, the builders and
read_existing_shm_options in include/xproc/ipc/shm_builders.hpp, and the endpoint's constructor).
Sizes are 64-bit and wrap around; the size of the header is whatever the build makes it.
*/
module Manifest {
  import opened Common

  import opened SegmentProtocol

  type Size = n: nat | n < Wrap64 witness 0

  datatype Kind = Fixed | Varlen

  // transport_options, for the shared-memory backend.
  datatype Options = Options(
    path: string, shmSize: Size, itemSize: nat, alignment: bv32,
    schema: nat, timestamp: nat, flags: nat, createIfMissing: bool, kind: Kind, namespace: string
  )

  // What the size arithmetic needs of the build: the header is not empty and fits in memory.
  predicate Sane(abi: Abi) { 0 < abi.headerSize < Wrap64 }

  function SizeForCapacity(abi: Abi, capacity: Size): Size { (abi.headerSize + capacity) % Wrap64 }

  function CapacityForSize(abi: Abi, size: Size): Size {
    if size > abi.headerSize then size - abi.headerSize else 0
  }

  // The capacity survives the trip through a size exactly when the sum does not wrap; a size
  // survives the trip through a capacity exactly when it has room for the header.
  lemma SizeRoundTrip(abi: Abi, n: Size)
    requires Sane(abi)
    ensures CapacityForSize(abi, SizeForCapacity(abi, n)) == n <==> abi.headerSize + n < Wrap64
    ensures SizeForCapacity(abi, CapacityForSize(abi, n)) == n <==> abi.headerSize <= n
  {
    if abi.headerSize + n < Wrap64 {
      assert SizeForCapacity(abi, n) == abi.headerSize + n;
    } else {
      assert SizeForCapacity(abi, n) == abi.headerSize + n - Wrap64;
    }
  }

  // ---------------------------------------------------------------------
  // Validating options
  // ---------------------------------------------------------------------

  // validate_transport_options
  predicate ValidOptions(abi: Abi, windows: bool, o: Options) {
    (o.kind == Fixed ==> o.itemSize != 0) && AlignmentOk(o) && NamespaceOk(windows, o) && o.path != "" && SizeOk(abi, o)
  }

  // What a producer or consumer requires; an observer requires only the above.
  predicate ValidEndpoint(abi: Abi, windows: bool, o: Options) {
    ValidOptions(abi, windows, o) && !(o.createIfMissing && o.shmSize == 0)
  }

  // What the validators complain of, if anything; the first complaint is thrown.
  datatype Complaint = Fine | NoItemSize | BadAlignment | BadNamespace | NoPath | TooSmall | NoSize

  predicate AlignmentOk(o: Options) { o.alignment == 0 || IsPowerOfTwo(o.alignment) }

  predicate NamespaceOk(windows: bool, o: Options) { windows ==> o.namespace == "Local" || o.namespace == "Global" }

  predicate SizeOk(abi: Abi, o: Options) { o.shmSize == 0 || abi.headerSize <= o.shmSize }

  // validate_transport_options: the complaint is the first that applies, and none exactly for valid
  // options.
  method ValidateOptions(abi: Abi, windows: bool, o: Options) returns (c: Complaint)
    ensures c == Fine <==> ValidOptions(abi, windows, o)
    ensures c == NoItemSize <==> o.kind == Fixed && o.itemSize == 0
    ensures c == BadAlignment <==> (o.kind == Fixed ==> o.itemSize != 0) && !AlignmentOk(o)
    ensures c == BadNamespace <==> (o.kind == Fixed ==> o.itemSize != 0) && AlignmentOk(o) && !NamespaceOk(windows, o)
    ensures c == NoPath <==>
              (o.kind == Fixed ==> o.itemSize != 0) && AlignmentOk(o) && NamespaceOk(windows, o) && o.path == ""
    ensures c == TooSmall <==>
              && (o.kind == Fixed ==> o.itemSize != 0) && AlignmentOk(o) && NamespaceOk(windows, o) && o.path != ""
              && !SizeOk(abi, o)
  {
    if o.kind == Fixed && o.itemSize == 0 {
      return NoItemSize;
    }
    if !AlignmentOk(o) {
      return BadAlignment;
    }
    if !NamespaceOk(windows, o) {
      return BadNamespace;
    }
    if o.path == "" {
      return NoPath;
    }
    if !SizeOk(abi, o) {
      return TooSmall;
    }
    return Fine;
  }

  // The validators of producers and consumers, which add one condition.
  method ValidateEndpointOptions(abi: Abi, windows: bool, o: Options) returns (c: Complaint)
    ensures c == Fine <==> ValidEndpoint(abi, windows, o)
    ensures c == NoSize <==> ValidOptions(abi, windows, o) && o.createIfMissing && o.shmSize == 0
    ensures !ValidOptions(abi, windows, o) ==> c !in {Fine, NoSize}
  {
    c := ValidateOptions(abi, windows, o);
    if c == Fine && o.createIfMissing && o.shmSize == 0 {
      c := NoSize;
    }
  }

  // The options a builder makes for a capacity; observer_options clears createIfMissing.
  function Build(abi: Abi, o: Options, capacity: Size): Options {
    o.(shmSize := SizeForCapacity(abi, capacity), createIfMissing := true)
  }

  function ForObserver(o: Options): Options { o.(createIfMissing := false) }

  // A capacity whose size wraps is always rejected before a producer or consumer opens, and one
  // whose size does not wrap never is on that account.
  lemma WrapIsRejected(abi: Abi, windows: bool, o: Options, capacity: Size)
    requires Sane(abi)
    ensures ValidEndpoint(abi, windows, Build(abi, o, capacity)) <==>
              abi.headerSize + capacity < Wrap64 && ValidOptions(abi, windows, o.(shmSize := 0))
  {
    SizeRoundTrip(abi, capacity);
  }

  // An observer of the same builder misses exactly one wrapped capacity: the one whose size
  // becomes zero, which means "take the size of what is there".
  lemma ObserverMissesOneWrap(abi: Abi, windows: bool, o: Options, capacity: Size)
    requires Sane(abi) && ValidOptions(abi, windows, o.(shmSize := 0))
    ensures ValidOptions(abi, windows, ForObserver(Build(abi, o, capacity))) <==>
              abi.headerSize + capacity <= Wrap64
    ensures ForObserver(Build(abi, o, capacity)) == Build(abi, o, capacity).(createIfMissing := false)
  {
    SizeRoundTrip(abi, capacity);
  }

  // ---------------------------------------------------------------------
  // From options to a header and back
  // ---------------------------------------------------------------------

  function LayoutOf(kind: Kind): nat { if kind == Fixed then 0 else 1 }

  function ItemSizeOf(o: Options): nat { if o.kind == Fixed then o.itemSize else 0 }

  // What an endpoint passes to format: as the creator, and as a client of an existing segment.
  function RequestOf(abi: Abi, o: Options): Request {
    Request(LayoutOf(o.kind), ItemSizeOf(o), CapacityForSize(abi, o.shmSize), DefaultAlignment(o.alignment),
            o.schema, o.timestamp, o.flags)
  }

  function ExpectedOf(abi: Abi, o: Options): Expected {
    Expected(LayoutOf(o.kind), ItemSizeOf(o), CapacityForSize(abi, o.shmSize), DefaultAlignment(o.alignment), o.schema)
  }

  // The options that describe a header.
  function Describe(abi: Abi, h: Fields, path: string, namespace: string): Options
    requires h.capacity < Wrap64
  {
    Options(path, SizeForCapacity(abi, h.capacity), if h.layout == 0 then h.itemSize else 0,
            DefaultAlignment(h.alignment), h.schema, h.timestamp, h.flags, false,
            if h.layout == 0 then Fixed else Varlen, namespace)
  }

  datatype Result = Recovered(options: Options) | NotOpened | Invalid(error: Error) | BadOptions

  const MaxRetries: nat := 10

  // The retry loop: `attempts(i)` tells whether the i-th open succeeds.
  method OpenWithRetries(attempts: nat -> bool) returns (ok: bool, tries: nat)
    ensures ok <==> exists i: nat :: i < 10 && attempts(i)
    ensures tries <= 10 && forall i: nat :: i + 1 < tries ==> !attempts(i)
    ensures ok ==> 0 < tries && attempts(tries - 1)
    ensures !ok ==> tries == 10
  {
    ok, tries := false, 0;
    while tries < MaxRetries && !ok
      invariant tries <= MaxRetries
      invariant forall i: nat :: i < tries && !(ok && i == tries - 1) ==> !attempts(i)
      invariant ok ==> 0 < tries && attempts(tries - 1)
    {
      ok := attempts(tries);
      tries := tries + 1;
    }
  }

  // Everything a reader needs of a header that it compares with its own early copy of the fields.
  ghost predicate Readable(abi: Abi, windows: bool, path: string, namespace: string, early: Fields, h: Fields) {
    && h.capacity < Wrap64
    && Compatible(abi, h, Expected(early.layout, early.itemSize, 0, early.alignment, early.schema))
    && (h.layout == 0 || h.layout == 1) && (h.layout == 0 ==> h.itemSize != 0)
    && ValidOptions(abi, windows, Describe(abi, h, path, namespace))
  }

  // Why nothing is recovered from a mapped segment: the header is not one, was not ready in time, or
  // differs from the copy; or it agrees, but describes no channel or no valid options.
  ghost predicate Explains(abi: Abi, windows: bool, path: string, namespace: string, early: Fields, h: Fields,
                           ready: bool, r: Result)
    requires h.capacity < Wrap64
  {
    var e := Expected(early.layout, early.itemSize, 0, early.alignment, early.schema);
    && (!ready ==> r == Invalid(if h.magic == abi.magic then NotReady else BadMagic))
    && (ready && !Compatible(abi, h, e) ==> r.Invalid? && VerdictIsFirst(abi, h, e, r.error))
    && (ready && Compatible(abi, h, e) ==>
          if h.layout != 0 && h.layout != 1 then r == Invalid(LayoutType)
          else if h.layout == 0 && h.itemSize == 0 then r == Invalid(ItemSize)
          else r.Recovered? || (r == BadOptions && !ValidOptions(abi, windows, Describe(abi, h, path, namespace))))
  }

  // Once the segment is mapped. The fields are copied out first, as `early`; then the header, by
  // then `h`, is waited for and compared with the copy.
  method Recover(abi: Abi, windows: bool, path: string, namespace: string, early: Fields, h: Fields,
                 loads: nat -> bool) returns (r: Result)
    requires h.capacity < Wrap64
    ensures r != NotOpened
    ensures Explains(abi, windows, path, namespace, early, h, exists i: nat :: i < SpinLimit && loads(i), r)
    ensures r.Recovered? ==>
              r.options == Describe(abi, h, path, namespace).(timestamp := early.timestamp, flags := early.flags)
    ensures r.Recovered? <==>
              (exists i: nat :: i < SpinLimit && loads(i)) && Readable(abi, windows, path, namespace, early, h)
  {
    var align := DefaultAlignment(early.alignment);
    var e := Expected(early.layout, early.itemSize, 0, align, early.schema);
    var error := ValidateDetailed(abi, Some(h), loads, e);
    if error != Ok {
      return Invalid(error);
    }
    if early.layout != 0 && early.layout != 1 {
      return Invalid(LayoutType);
    }
    if early.layout == 0 && early.itemSize == 0 {
      return Invalid(ItemSize);
    }
    var o := Options(path, SizeForCapacity(abi, h.capacity), if early.layout == 0 then early.itemSize else 0, align,
                     early.schema, early.timestamp, early.flags, false, if early.layout == 0 then Fixed else Varlen,
                     namespace);
    if !ValidOptions(abi, windows, o) {
      return BadOptions;
    }
    return Recovered(o);
  }

  // read_existing_shm_options
  method ReadExisting(abi: Abi, windows: bool, path: string, namespace: string, attempts: nat -> bool,
                      early: Fields, h: Fields, loads: nat -> bool) returns (r: Result)
    requires h.capacity < Wrap64
    ensures r == NotOpened <==> forall i: nat :: i < MaxRetries ==> !attempts(i)
    ensures r != NotOpened ==>
              Explains(abi, windows, path, namespace, early, h, exists i: nat :: i < SpinLimit && loads(i), r)
    ensures r.Recovered? ==>
              && r.options == Describe(abi, h, path, namespace).(timestamp := early.timestamp, flags := early.flags)
              && ValidOptions(abi, windows, r.options)
    ensures r.Recovered? <==>
              && (exists i: nat :: i < MaxRetries && attempts(i)) && (exists i: nat :: i < SpinLimit && loads(i))
              && Readable(abi, windows, path, namespace, early, h)
  {
    var ok, _ := OpenWithRetries(attempts);
    if !ok {
      return NotOpened;
    }
    r := Recover(abi, windows, path, namespace, early, h, loads);
  }

  // Options with the defaults filled in: what the header can remember of them.
  function Effective(o: Options): Options {
    o.(itemSize := ItemSizeOf(o), alignment := DefaultAlignment(o.alignment), createIfMissing := false)
  }

  // Describing the header that a creator leaves gives back the creator's options.
  lemma DescribeFinal(abi: Abi, windows: bool, o: Options)
    requires Sane(abi) && ValidEndpoint(abi, windows, o) && o.shmSize != 0
    ensures var h := Final(abi, RequestOf(abi, o));
            && h.capacity < Wrap64
            && Describe(abi, h, o.path, o.namespace) == Effective(o)
  {
    SizeRoundTrip(abi, o.shmSize);
    assert DefaultAlignment(DefaultAlignment(o.alignment)) == DefaultAlignment(o.alignment);
  }

  // The recovered options are valid for every role, and attaching with them passes validation.
  lemma EffectiveAttaches(abi: Abi, windows: bool, o: Options)
    requires Sane(abi) && ValidEndpoint(abi, windows, o) && o.shmSize != 0
    requires ItemSizeOf(o) != 0 ==> CapacityForSize(abi, o.shmSize) % ItemSizeOf(o) == 0
    ensures ValidOptions(abi, windows, Effective(o)) && ValidEndpoint(abi, windows, Effective(o))
    ensures Compatible(abi, Final(abi, RequestOf(abi, o)), ExpectedOf(abi, Effective(o)))
  {
    assert DefaultAlignment(DefaultAlignment(o.alignment)) == DefaultAlignment(o.alignment);
    PowersOfTwo(8);
  }

  // The round trip: create a segment, then read its options by path. Whatever the creator's
  // options were, reading succeeds, gives them back with the defaults filled in, and the result
  // always passes validation when used to attach.
  method CreateThenRead(abi: Abi, windows: bool, o: Options) returns (r: Result)
    requires Sane(abi) && ValidEndpoint(abi, windows, o) && o.createIfMissing
    requires ItemSizeOf(o) != 0 ==> CapacityForSize(abi, o.shmSize) % ItemSizeOf(o) == 0
    ensures r == Recovered(Effective(o))
    ensures ValidEndpoint(abi, windows, r.options)
    ensures Validate(abi, Final(abi, RequestOf(abi, o)), ExpectedOf(abi, r.options)) == Ok
  {
    var h := Final(abi, RequestOf(abi, o));
    DescribeFinal(abi, windows, o);
    EffectiveAttaches(abi, windows, o);
    ValidateIsCompatible(abi, h, ExpectedOf(abi, Effective(o)));
    var yes := (i: nat) => true;
    assert yes(0);
    r := ReadExisting(abi, windows, o.path, o.namespace, yes, h, h, yes);
  }

  // What a reader that has passed validation returns: the compared fields of its copy, the capacity of
  // the header, and its copies of the two creator fields.
  function ReadOptions(abi: Abi, copy: Fields, h: Fields, path: string, namespace: string): Options
    requires h.capacity < Wrap64
  {
    Options(path, SizeForCapacity(abi, h.capacity), if copy.layout == 0 then copy.itemSize else 0,
            DefaultAlignment(copy.alignment), copy.schema, copy.timestamp, copy.flags, false,
            if copy.layout == 0 then Fixed else Varlen, namespace)
  }

  // In every run of the creator with any clients, from the fresh segment on: a reader that succeeds
  // returns the creator's options with the defaults filled in, but for the two fields nothing
  // compares. They are right if and only if each was loaded after its store or is zero anyway; and
  // they always are if the segment was published when the reader started.
  lemma ReadOverRun(abi: Abi, windows: bool, o: Options, run: seq<Step>, id: nat)
    requires Sane(abi) && ValidEndpoint(abi, windows, o) && o.createIfMissing
    requires CanRun(abi, RequestOf(abi, o), Fresh, run) && id in After(abi, RequestOf(abi, o), Fresh, run).clients
    requires var c := After(abi, RequestOf(abi, o), Fresh, run).clients[id]; c.reading.Some? && Passed(c)
    ensures var s := After(abi, RequestOf(abi, o), Fresh, run);
            var copy := s.clients[id].reading.value;
            && s.h.capacity < Wrap64
            && var read := ReadOptions(abi, copy.fields, s.h, o.path, o.namespace);
               && ValidOptions(abi, windows, read)
               && read == Effective(o).(timestamp := copy.fields.timestamp, flags := copy.fields.flags)
               && (read == Effective(o) <==>
                     (copy.timestampStored || o.timestamp == 0) && (copy.flagsStored || o.flags == 0))
               && (s.clients[id].late ==> read == Effective(o))
  {
    ReaderCopies(abi, RequestOf(abi, o), run, id);
    DescribeFinal(abi, windows, o);
    PowersOfTwo(8);
  }

  // A reader that overlaps creation can return options that are not the creator's: in this run it
  // succeeds with zeros for the timestamp and the flags.
  lemma StaleManifest(abi: Abi, windows: bool, o: Options) returns (run: seq<Step>)
    requires Sane(abi) && ValidEndpoint(abi, windows, o) && o.createIfMissing && (o.timestamp != 0 || o.flags != 0)
    requires ItemSizeOf(o) != 0 ==> CapacityForSize(abi, o.shmSize) % ItemSizeOf(o) == 0
    ensures CanRun(abi, RequestOf(abi, o), Fresh, run) && 0 in After(abi, RequestOf(abi, o), Fresh, run).clients
    ensures var s := After(abi, RequestOf(abi, o), Fresh, run);
            && s.clients[0].reading.Some? && Passed(s.clients[0]) && s.h.capacity < Wrap64
            && var read := ReadOptions(abi, s.clients[0].reading.value.fields, s.h, o.path, o.namespace);
               read == Effective(o).(timestamp := 0, flags := 0) && read != Effective(o)
  {
    EffectiveAttaches(abi, windows, o);
    run := StaleRun(abi, RequestOf(abi, o));
    ReadOverRun(abi, windows, o, run, 0);
  }

  // The reader of the protocol does what read_existing_shm_options does: given the reader's copy and
  // the header it was compared with, the code returns these options.
  method ReaderIsReadExisting(abi: Abi, windows: bool, o: Options, ghost run: seq<Step>, ghost id: nat,
                              copy: Fields, h: Fields) returns (r: Result)
    requires Sane(abi) && ValidEndpoint(abi, windows, o) && o.createIfMissing
    requires CanRun(abi, RequestOf(abi, o), Fresh, run) && id in After(abi, RequestOf(abi, o), Fresh, run).clients
    requires var c := After(abi, RequestOf(abi, o), Fresh, run).clients[id];
             c.reading.Some? && Passed(c) && c.reading.value.fields == copy
    requires h == After(abi, RequestOf(abi, o), Fresh, run).h
    ensures h.capacity < Wrap64 && r == Recovered(ReadOptions(abi, copy, h, o.path, o.namespace))
  {
    ReadOverRun(abi, windows, o, run, id);
    ValidationIsOfFinalHeader(abi, RequestOf(abi, o), run, id);
    ReaderCopies(abi, RequestOf(abi, o), run, id);
    DescribeFinal(abi, windows, o);
    InvariantHolds(abi, RequestOf(abi, o), Fresh, run);
    var yes := (i: nat) => true;
    assert yes(0);
    r := ReadExisting(abi, windows, o.path, o.namespace, yes, copy, h, yes);
  }
}
