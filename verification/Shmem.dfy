/** Decoding a core domain's shared memory (internal/monitor/shmem.go). */
module Shmem {
  import opened Wrappers
  import opened Decimal

  type byte = x: int | 0 <= x < 256

  const PREFIX_SIZE := 6224
  const PROCESS_OFFSET := 1080
  const PROCESS_STRIDE := 80
  const PROCESS_COUNT := 64
  const INITIALIZED_AT := 6220

  datatype MemoryStats = MemoryStats(used: nat, limit: nat)

  datatype ReadError =
    | Pending
    | Short
    | BadFlag(flag: nat)
    | NoProgress
    | ZeroQuota
    | Overflow
    | SlotsChanged
    | OpenFailed
    | StatFailed
    | NotRegular
    | ReadFailed
    | BadIdentity

  /** binary.LittleEndian.Uint32 of the bytes from `at` on. */
  function U32(data: seq<byte>, at: nat): nat
    requires at + 4 <= |data|
  {
    var b0: int, b1: int, b2: int, b3: int := data[at], data[at + 1], data[at + 2], data[at + 3];
    b0 + 0x100 * b1 + 0x1_0000 * b2 + 0x100_0000 * b3
  }

  /** binary.LittleEndian.Uint64. */
  function U64(data: seq<byte>, at: nat): nat
    requires at + 8 <= |data|
  {
    U32(data, at) + 0x1_0000_0000 * U32(data, at + 4)
  }

  // ---- What one slot says ----

  function SlotBase(i: nat): nat {
    PROCESS_OFFSET + i * PROCESS_STRIDE
  }

  predicate Long(data: seq<byte>) {
    |data| >= PREFIX_SIZE
  }

  function Pid(data: seq<byte>, i: nat): nat
    requires Long(data) && i < PROCESS_COUNT
  {
    U32(data, SlotBase(i))
  }

  function Active(data: seq<byte>, i: nat): nat
    requires Long(data) && i < PROCESS_COUNT
  {
    U32(data, SlotBase(i) + 72)
  }

  /** Go reads the pid as an int32: it is positive when the word is neither zero nor in the upper half. */
  predicate Counts(pid: nat, active: nat) {
    0 < pid < 0x8000_0000 && active == 1
  }

  function Contribution(data: seq<byte>, i: nat): nat
    requires Long(data) && i < PROCESS_COUNT
  {
    if Counts(Pid(data, i), Active(data, i)) then U64(data, SlotBase(i) + 8) else 0
  }

  /** The exact, unbounded sum over the first `n` slots. */
  function Usage(data: seq<byte>, n: nat): nat
    requires Long(data) && n <= PROCESS_COUNT
  {
    if n == 0 then 0 else Usage(data, n - 1) + Contribution(data, n - 1)
  }

  predicate SameSlot(data: seq<byte>, verify: seq<byte>, i: nat)
    requires Long(data) && Long(verify) && i < PROCESS_COUNT
  {
    Pid(data, i) == Pid(verify, i) && Active(data, i) == Active(verify, i)
  }

  predicate SameSlots(data: seq<byte>, verify: seq<byte>, n: nat)
    requires Long(data) && Long(verify) && n <= PROCESS_COUNT
  {
    forall i :: 0 <= i < n ==> SameSlot(data, verify, i)
  }

  predicate Initialized(data: seq<byte>, verify: seq<byte>) {
    Long(data) && Long(verify) && U32(data, INITIALIZED_AT) == 1
  }

  predicate SameHeader(data: seq<byte>, verify: seq<byte>)
    requires Initialized(data, verify)
  {
    U32(verify, INITIALIZED_AT) == 1 && U64(data, 0) == U64(verify, 0)
  }

  /** The two reads agree on every slot identity before slot `n`, and the sum so far fits in 64 bits. */
  predicate CleanUpTo(data: seq<byte>, verify: seq<byte>, n: nat)
    requires Long(data) && Long(verify) && n <= PROCESS_COUNT
  {
    SameSlots(data, verify, n) && Usage(data, n) <= MAX_UINT64
  }

  predicate Decodable(data: seq<byte>, verify: seq<byte>) {
    Initialized(data, verify) && SameHeader(data, verify) && U64(data, 0) != 0
    && CleanUpTo(data, verify, PROCESS_COUNT)
  }

  lemma {:induction false} UsageMonotone(data: seq<byte>, m: nat, n: nat)
    requires Long(data) && m <= n <= PROCESS_COUNT
    ensures Usage(data, m) <= Usage(data, n)
  {
    if m < n {
      UsageMonotone(data, m, n - 1);
    }
  }

  /** The two reads disagree: on the header, or on the first slot that is wrong in any way. */
  ghost predicate Moved(data: seq<byte>, verify: seq<byte>) {
    Initialized(data, verify)
    && (!SameHeader(data, verify) || (U64(data, 0) != 0 && exists i :: MovesAt(data, verify, i)))
  }

  /** The header is good and the first slot that is wrong in any way takes the sum past 64 bits. */
  ghost predicate Overflows(data: seq<byte>, verify: seq<byte>) {
    Initialized(data, verify) && SameHeader(data, verify) && U64(data, 0) != 0
    && exists i :: OverflowsAt(data, verify, i)
  }

  predicate MovesAt(data: seq<byte>, verify: seq<byte>, i: nat)
    requires Long(data) && Long(verify)
  {
    i < PROCESS_COUNT && CleanUpTo(data, verify, i) && !SameSlot(data, verify, i)
  }

  predicate OverflowsAt(data: seq<byte>, verify: seq<byte>, i: nat)
    requires Long(data) && Long(verify)
  {
    i < PROCESS_COUNT && CleanUpTo(data, verify, i) && SameSlot(data, verify, i) && Usage(data, i + 1) > MAX_UINT64
  }

  predicate DecodeError(e: ReadError) {
    e.Pending? || e.Short? || e.BadFlag? || e.NoProgress? || e.ZeroQuota? || e.Overflow?
  }

  method DecodeMemory(data: seq<byte>, verify: seq<byte>) returns (r: Result<MemoryStats, ReadError>)
    ensures r.Ok? <==> Decodable(data, verify)
    ensures r.Ok? ==> r.value == MemoryStats(Usage(data, PROCESS_COUNT), U64(data, 0)) && r.value.used <= MAX_UINT64
    ensures r == Err(Short) <==> !(Long(data) && Long(verify))
    ensures r == Err(Pending) <==> Long(data) && Long(verify) && U32(data, INITIALIZED_AT) == 0
    ensures r.Err? && r.error.BadFlag? <==> Long(data) && Long(verify) && U32(data, INITIALIZED_AT) > 1
    ensures r == Err(ZeroQuota) <==> Initialized(data, verify) && SameHeader(data, verify) && U64(data, 0) == 0
    ensures r == Err(NoProgress) <==> Moved(data, verify)
    ensures r == Err(Overflow) <==> Overflows(data, verify)
    ensures r.Err? ==> DecodeError(r.error)
  {
    if |data| < PREFIX_SIZE || |verify| < PREFIX_SIZE {
      return Err(Short);
    }
    var init := U32(data, INITIALIZED_AT);
    if init == 0 {
      return Err(Pending);
    }
    if init != 1 {
      return Err(BadFlag(init));
    }
    if U32(verify, INITIALIZED_AT) != init || U64(data, 0) != U64(verify, 0) {
      return Err(NoProgress);
    }
    if U64(data, 0) == 0 {
      return Err(ZeroQuota);
    }
    r := SumSlots(data, verify);
  }

  /** The slot loop of decodeMemory, entered once the header has been accepted. */
  method SumSlots(data: seq<byte>, verify: seq<byte>) returns (r: Result<MemoryStats, ReadError>)
    requires Initialized(data, verify) && SameHeader(data, verify) && U64(data, 0) != 0
    ensures r.Ok? <==> Decodable(data, verify)
    ensures r.Ok? ==> r.value == MemoryStats(Usage(data, PROCESS_COUNT), U64(data, 0)) && r.value.used <= MAX_UINT64
    ensures r == Err(NoProgress) <==> Moved(data, verify)
    ensures r == Err(Overflow) <==> Overflows(data, verify)
    ensures r.Err? ==> r.error.NoProgress? || r.error.Overflow?
  {
    var sum := 0;
    for i := 0 to PROCESS_COUNT
      invariant sum == Usage(data, i) && CleanUpTo(data, verify, i)
    {
      var base := PROCESS_OFFSET + i * PROCESS_STRIDE;
      assert base == SlotBase(i) && base + 76 <= PREFIX_SIZE;
      var pid, active := U32(data, base), U32(data, base + 72);
      if pid != U32(verify, base) || active != U32(verify, base + 72) {
        OnlyFault(data, verify, i);
        return Err(NoProgress);
      }
      assert SameSlot(data, verify, i);
      if pid == 0 || pid >= 0x8000_0000 || active != 1 {
        continue;
      }
      var used := U64(data, base + 8);
      assert Usage(data, i + 1) == sum + used;
      if used > MAX_UINT64 - sum {
        OnlyFault(data, verify, i);
        return Err(Overflow);
      }
      sum := sum + used;
    }
    NoFault(data, verify);
    return Ok(MemoryStats(sum, U64(data, 0)));
  }

  /** A slot that ends a clean prefix is the only one that does, so it alone decides the outcome. */
  lemma OnlyFault(data: seq<byte>, verify: seq<byte>, i: nat)
    requires Initialized(data, verify) && SameHeader(data, verify) && U64(data, 0) != 0
    requires MovesAt(data, verify, i) || OverflowsAt(data, verify, i)
    ensures !Decodable(data, verify)
    ensures Moved(data, verify) <==> MovesAt(data, verify, i)
    ensures Overflows(data, verify) <==> OverflowsAt(data, verify, i)
  {
    forall n | i < n <= PROCESS_COUNT ensures !CleanUpTo(data, verify, n) {
      UsageMonotone(data, i + 1, n);
    }
    forall j: nat | MovesAt(data, verify, j) || OverflowsAt(data, verify, j) ensures i == j {
      if j < i {
        UsageMonotone(data, j + 1, i);
      }
    }
  }

  lemma NoFault(data: seq<byte>, verify: seq<byte>)
    requires Initialized(data, verify) && SameHeader(data, verify) && U64(data, 0) != 0
    requires CleanUpTo(data, verify, PROCESS_COUNT)
    ensures !Moved(data, verify) && !Overflows(data, verify)
  {
    forall j: nat | OverflowsAt(data, verify, j) ensures false {
      UsageMonotone(data, j + 1, PROCESS_COUNT);
    }
  }

  // ---- The two-attempt reader ----

  /** What opening, statting and reading the file gave. `chunks` are the ReadAt results in order; None failed. */
  datatype FileView =
    | Missing
    | CannotOpen
    | CannotStat
    | Irregular
    | Regular(size: nat, chunks: seq<Option<seq<byte>>>)

  /** Up to four whole-prefix reads follow a successful stat of a long enough file. */
  predicate ValidView(f: FileView) {
    f.Regular? ==> |f.chunks| == 4 && forall k :: 0 <= k < 4 && f.chunks[k].Some? ==> |f.chunks[k].value| == PREFIX_SIZE
  }

  predicate ReadPair(f: FileView, attempt: nat)
    requires ValidView(f) && f.Regular? && attempt < 2
  {
    f.chunks[2 * attempt].Some? && f.chunks[2 * attempt + 1].Some?
  }

  predicate PairDecodes(f: FileView, attempt: nat)
    requires ValidView(f) && f.Regular? && attempt < 2
  {
    ReadPair(f, attempt) && Decodable(f.chunks[2 * attempt].value, f.chunks[2 * attempt + 1].value)
  }

  predicate PairGives(f: FileView, attempt: nat, stats: MemoryStats)
    requires ValidView(f) && f.Regular? && attempt < 2
  {
    PairDecodes(f, attempt)
    && stats == MemoryStats(Usage(f.chunks[2 * attempt].value, PROCESS_COUNT), U64(f.chunks[2 * attempt].value, 0))
  }

  /** The first pair was read whole and the slots or the header moved between its two reads. */
  ghost predicate FirstPairMoved(f: FileView)
    requires ValidView(f) && f.Regular?
  {
    ReadPair(f, 0) && Moved(f.chunks[0].value, f.chunks[1].value)
  }

  /** The file's first pair of reads gives these numbers, or that pair moved and the second one gives them. */
  ghost predicate Gives(f: FileView, stats: MemoryStats)
    requires ValidView(f)
  {
    f.Regular? && (PairGives(f, 0, stats) || (FirstPairMoved(f) && PairGives(f, 1, stats)))
  }

  method ReadMemory(f: FileView) returns (r: Result<MemoryStats, ReadError>)
    requires ValidView(f)
    ensures r.Ok? <==> f.Regular? && f.size >= PREFIX_SIZE
                       && (PairDecodes(f, 0) || (FirstPairMoved(f) && PairDecodes(f, 1)))
    ensures r.Ok? ==> Gives(f, r.value)
    ensures r != Err(NoProgress)
    ensures r == Err(Short) <==> f.Regular? && f.size < PREFIX_SIZE
    ensures f.Missing? ==> r == Err(Pending)
  {
    match f {
      case Missing => return Err(Pending);
      case CannotOpen => return Err(OpenFailed);
      case CannotStat => return Err(StatFailed);
      case Irregular => return Err(NotRegular);
      case Regular(size, chunks) =>
        if size < PREFIX_SIZE {
          return Err(Short);
        }
        for attempt := 0 to 2
          invariant attempt == 1 ==> FirstPairMoved(f)
          invariant attempt == 2 ==> FirstPairMoved(f) && !PairDecodes(f, 1)
        {
          if chunks[2 * attempt].None? || chunks[2 * attempt + 1].None? {
            return Err(ReadFailed);
          }
          r := DecodeMemory(chunks[2 * attempt].value, chunks[2 * attempt + 1].value);
          if r != Err(NoProgress) {
            assert r.Ok? ==> PairDecodes(f, attempt);
            return r;
          }
        }
        return Err(SlotsChanged);
    }
  }

  // ---- Reading back what a writer laid out ----

  /** One process slot as its owner stores it. */
  datatype Slot = Slot(pid: nat, used: nat, active: nat)

  predicate ValidSlot(s: Slot) {
    s.pid < 0x1_0000_0000 && s.active < 0x1_0000_0000 && s.used <= MAX_UINT64
  }

  function PutU32(n: nat): seq<byte>
    requires n < 0x1_0000_0000
  {
    [n % 0x100, n / 0x100 % 0x100, n / 0x100 / 0x100 % 0x100, n / 0x100 / 0x100 / 0x100]
  }

  function PutU64(n: nat): seq<byte>
    requires n <= MAX_UINT64
  {
    PutU32(n % 0x1_0000_0000) + PutU32(n / 0x1_0000_0000)
  }

  lemma PutU32ReadsBack(data: seq<byte>, at: nat, n: nat)
    requires n < 0x1_0000_0000 && at + 4 <= |data| && data[at..at + 4] == PutU32(n)
    ensures U32(data, at) == n
  {
    var b := data[at..at + 4];
    assert data[at] == b[0] && data[at + 1] == b[1] && data[at + 2] == b[2] && data[at + 3] == b[3];
    var n1, n2 := n / 0x100, n / 0x100 / 0x100;
    assert n == 0x100 * n1 + b[0] && n1 == 0x100 * n2 + b[1] && n2 == 0x100 * b[3] + b[2];
  }

  lemma PutU64ReadsBack(data: seq<byte>, at: nat, n: nat)
    requires n <= MAX_UINT64 && at + 8 <= |data| && data[at..at + 8] == PutU64(n)
    ensures U64(data, at) == n
  {
    var b := data[at..at + 8];
    assert data[at..at + 4] == b[..4] == PutU32(n % 0x1_0000_0000);
    assert data[at + 4..at + 8] == b[4..] == PutU32(n / 0x1_0000_0000);
    PutU32ReadsBack(data, at, n % 0x1_0000_0000);
    PutU32ReadsBack(data, at + 4, n / 0x1_0000_0000);
  }

  /** What a writer left in memory: the initialized flag, the quota and the 64 slots. */
  datatype Layout = Layout(flag: nat, quota: nat, slots: seq<Slot>)

  predicate ValidLayout(l: Layout) {
    l.flag < 0x1_0000_0000 && l.quota <= MAX_UINT64 && |l.slots| == 64
  }

  /** `data` holds this layout; every other byte is free. */
  ghost predicate Holds(data: seq<byte>, l: Layout)
    requires ValidLayout(l)
  {
    HoldsSlots(data, l.slots) && data[0..8] == PutU64(l.quota) && data[6220..6224] == PutU32(l.flag)
  }

  ghost predicate HoldsSlots(data: seq<byte>, slots: seq<Slot>) {
    Long(data) && forall i :: 0 <= i < |slots| ==> ValidSlot(slots[i]) && HoldsSlot(data, 1080 + 80 * i, slots[i])
  }

  ghost predicate HoldsSlot(data: seq<byte>, base: nat, s: Slot)
    requires ValidSlot(s)
  {
    base + 76 <= |data|
    && data[base..base + 4] == PutU32(s.pid)
    && data[base + 8..base + 16] == PutU64(s.used)
    && data[base + 72..base + 76] == PutU32(s.active)
  }

  lemma SlotReadsBack(data: seq<byte>, base: nat, s: Slot)
    requires ValidSlot(s) && HoldsSlot(data, base, s)
    ensures U32(data, base) == s.pid && U32(data, base + 72) == s.active && U64(data, base + 8) == s.used
  {
    PutU32ReadsBack(data, base, s.pid);
    PutU32ReadsBack(data, base + 72, s.active);
    PutU64ReadsBack(data, base + 8, s.used);
  }

  function SlotUsage(slots: seq<Slot>): nat {
    if slots == [] then 0
    else SlotUsage(slots[..|slots| - 1]) + Live(slots[|slots| - 1])
  }

  function Live(s: Slot): nat {
    if 0 < s.pid <= 0x7FFF_FFFF && s.active == 1 then s.used else 0
  }

  lemma SlotOf(data: seq<byte>, s: Slot, i: nat)
    requires Long(data) && i < PROCESS_COUNT && ValidSlot(s) && HoldsSlot(data, 1080 + 80 * i, s)
    ensures Pid(data, i) == s.pid && Active(data, i) == s.active && Contribution(data, i) == Live(s)
  {
    assert SlotBase(i) == 1080 + 80 * i;
    SlotReadsBack(data, SlotBase(i), s);
  }

  lemma HeldSlot(data: seq<byte>, slots: seq<Slot>, i: nat)
    requires i < |slots| <= PROCESS_COUNT && HoldsSlots(data, slots)
    ensures Contribution(data, i) == Live(slots[i])
  {
    SlotOf(data, slots[i], i);
  }

  lemma SlotUsageStep(slots: seq<Slot>, n: nat)
    requires 0 < n <= |slots|
    ensures SlotUsage(slots[..n]) == SlotUsage(slots[..n - 1]) + Live(slots[n - 1])
  {
    assert slots[..n][..n - 1] == slots[..n - 1];
  }

  lemma {:induction false} UsageOfHeldSlots(data: seq<byte>, slots: seq<Slot>, n: nat)
    requires n <= |slots| <= PROCESS_COUNT && HoldsSlots(data, slots)
    ensures Usage(data, n) == SlotUsage(slots[..n])
  {
    if n > 0 {
      UsageOfHeldSlots(data, slots, n - 1);
      HeldSlot(data, slots, n - 1);
      SlotUsageStep(slots, n);
    }
  }

  predicate SameOwner(s: Slot, t: Slot) {
    s.pid == t.pid && s.active == t.active
  }

  predicate SameOwners(a: Layout, b: Layout, n: nat)
    requires n <= |a.slots| && n <= |b.slots|
  {
    forall i :: 0 <= i < n ==> SameOwner(a.slots[i], b.slots[i])
  }

  /** Both reads found an initialized domain with this one quota, which is not zero. */
  predicate SameHeaders(a: Layout, b: Layout) {
    a.flag == 1 && b.flag == 1 && a.quota == b.quota && a.quota != 0
  }

  lemma HeaderReadsBack(data: seq<byte>, l: Layout)
    requires ValidLayout(l) && Holds(data, l)
    ensures U64(data, 0) == l.quota && U32(data, INITIALIZED_AT) == l.flag
  {
    PutU64ReadsBack(data, 0, l.quota);
    PutU32ReadsBack(data, INITIALIZED_AT, l.flag);
  }

  lemma SlotsReadBack(data: seq<byte>, verify: seq<byte>, a: Layout, b: Layout, n: nat)
    requires ValidLayout(a) && ValidLayout(b) && Holds(data, a) && Holds(verify, b) && n <= 64
    ensures SameSlots(data, verify, n) <==> SameOwners(a, b, n)
    ensures Usage(data, n) == SlotUsage(a.slots[..n])
  {
    UsageOfHeldSlots(data, a.slots, n);
    forall i | 0 <= i < n ensures SameSlot(data, verify, i) <==> SameOwner(a.slots[i], b.slots[i]) {
      SlotOf(data, a.slots[i], i);
      SlotOf(verify, b.slots[i], i);
    }
  }

  /**
    Two reads decode exactly when both saw an initialized domain with the same nonzero quota and the same owner in every
    slot, and the sum of the first read's live slots fits in 64 bits; that sum and that quota are what they give.
  */
  lemma DecodesWhatWasLaidOut(data: seq<byte>, verify: seq<byte>, a: Layout, b: Layout)
    requires ValidLayout(a) && ValidLayout(b) && Holds(data, a) && Holds(verify, b)
    ensures Decodable(data, verify) <==>
            SameHeaders(a, b) && SameOwners(a, b, 64) && SlotUsage(a.slots) <= MAX_UINT64
    ensures Usage(data, PROCESS_COUNT) == SlotUsage(a.slots) && U64(data, 0) == a.quota
  {
    HeaderReadsBack(data, a);
    HeaderReadsBack(verify, b);
    SlotsReadBack(data, verify, a, b, 64);
    assert a.slots[..64] == a.slots;
  }

  /** Slot `i` is the first that changed hands, and the live slots before it fit in 64 bits. */
  predicate ChangesHands(a: Layout, b: Layout, i: nat)
    requires ValidLayout(a) && ValidLayout(b)
  {
    i < 64 && SameOwners(a, b, i) && !SameOwner(a.slots[i], b.slots[i]) && SlotUsage(a.slots[..i]) <= MAX_UINT64
  }

  /** No slot up to `i` changed hands, and slot `i` is the first to take the sum past 64 bits. */
  predicate ExceedsAt(a: Layout, b: Layout, i: nat)
    requires ValidLayout(a) && ValidLayout(b)
  {
    i < 64 && SameOwners(a, b, i + 1) && SlotUsage(a.slots[..i]) <= MAX_UINT64 < SlotUsage(a.slots[..i + 1])
  }

  lemma FaultsReadBack(data: seq<byte>, verify: seq<byte>, a: Layout, b: Layout, i: nat)
    requires ValidLayout(a) && ValidLayout(b) && Holds(data, a) && Holds(verify, b)
    ensures MovesAt(data, verify, i) <==> ChangesHands(a, b, i)
    ensures OverflowsAt(data, verify, i) <==> ExceedsAt(a, b, i)
  {
    if i < 64 {
      SlotsReadBack(data, verify, a, b, i);
      SlotsReadBack(data, verify, a, b, i + 1);
      SlotOf(data, a.slots[i], i);
      SlotOf(verify, b.slots[i], i);
    }
  }

  /**
    A read is tried again exactly when the domain was initialized, and between the two reads its flag or quota changed
    or, before the sum overflowed, a slot changed hands; it overflows exactly when that comes first.
  */
  lemma TornReadsAreTold(data: seq<byte>, verify: seq<byte>, a: Layout, b: Layout)
    requires ValidLayout(a) && ValidLayout(b) && Holds(data, a) && Holds(verify, b)
    ensures Moved(data, verify) <==>
            a.flag == 1 && (b.flag != 1 || a.quota != b.quota || (a.quota != 0 && exists i :: ChangesHands(a, b, i)))
    ensures Overflows(data, verify) <==> SameHeaders(a, b) && exists i :: ExceedsAt(a, b, i)
  {
    HeaderReadsBack(data, a);
    HeaderReadsBack(verify, b);
    forall i: nat
      ensures MovesAt(data, verify, i) <==> ChangesHands(a, b, i)
      ensures OverflowsAt(data, verify, i) <==> ExceedsAt(a, b, i)
    {
      FaultsReadBack(data, verify, a, b, i);
    }
  }
}
