// Replica names: a volume name and an id from 0 to 31 (api/v1alpha1/common_helpers.go,
// api/v1alpha1/rvr_types.go). Names are bytes; all arithmetic is that of the source's widths.
module ReplicaNames {

  type Name = seq<bv8>

  const DASH: bv8 := 45
  const ZERO: bv8 := 48

  // ---------------------------------------------------------------------------
  // Ids and names
  // ---------------------------------------------------------------------------

  /** 1 for a decimal digit, else 0, without a branch. */
  function IsDigit(d: bv8): bv8 { 1 ^ ((((d as bv16) + 246) >> 8) as bv8) }

  lemma IsDigitIs(d: bv8)
    ensures IsDigit(d) == if d < 10 then 1 else 0
  {
  }

  function IdFromName(name: Name): bv8
    requires |name| >= 2   // a shorter name is out of range
  {
    var last, prev := name[|name| - 1] - ZERO, name[|name| - 2] - ZERO;
    last + prev * 10 * IsDigit(prev)
  }

  /** The table "-0" to "-31". */
  function Suffix(id: bv8): Name
    requires id < 32
  {
    if id < 10 then [DASH, ZERO + id] else [DASH, ZERO + id / 10, ZERO + id % 10]
  }

  /** Ids are written in decimal, as ASCII. */
  lemma SuffixIs(tens: bv8, ones: bv8)
    requires tens <= 3 && ones < 10 && 10 * tens + ones < 32
    ensures Suffix(10 * tens + ones) == if tens == 0 then [45, 48 + ones] else [45, 48 + tens, 48 + ones]
  {
  }

  function FormatName(volume: Name, id: bv8): Name
    requires id < 32   // the source panics otherwise
  {
    volume + Suffix(id)
  }

  /** Reading the id inverts formatting, in 8-bit arithmetic and for every volume name. */
  lemma IdRoundTrip(volume: Name, id: bv8)
    requires id < 32
    ensures |FormatName(volume, id)| >= 2 && IdFromName(FormatName(volume, id)) == id
  {
    hide IsDigit;
    var name := FormatName(volume, id);
    var s := Suffix(id);
    assert name[|name| - 1] == s[|s| - 1] && name[|name| - 2] == s[|s| - 2];
    IsDigitIs(s[|s| - 2] - ZERO);
  }

  /** A name determines its volume and its id. */
  lemma FormatInjective(v: Name, i: bv8, w: Name, j: bv8)
    requires i < 32 && j < 32 && FormatName(v, i) == FormatName(w, j)
    ensures v == w && i == j
  {
    hide IdFromName, Suffix;
    IdRoundTrip(v, i);
    IdRoundTrip(w, j);
    var name := FormatName(v, i);
    assert v == name[..|name| - |Suffix(i)|] && w == name[..|name| - |Suffix(i)|];
  }

  // ---------------------------------------------------------------------------
  // Bit masks
  // ---------------------------------------------------------------------------

  /** A shift of 32 bits or more gives 0. */
  function Shifted(k: bv8): bv32 { if k < 32 then 1 << k else 0 }

  predicate Overlaps(x: bv32, y: bv32) { x & y != 0 }

  predicate Bit(x: bv32, k: bv8)
    requires k < 32
  {
    Overlaps(x, Shifted(k))
  }

  lemma ShiftedMeet(k: bv8, i: bv8)
    requires i < 32
    ensures Overlaps(Shifted(k), Shifted(i)) <==> k == i
  {
  }

  lemma OrMisses(x: bv32, y: bv32, z: bv32)
    requires !Overlaps(x, z) && !Overlaps(y, z)
    ensures !Overlaps(x | y, z)
  {
  }

  lemma MissesBoth(x: bv32, y: bv32, z: bv32)
    requires !Overlaps(x | y, z)
    ensures !Overlaps(x, z) && !Overlaps(y, z)
  {
  }

  lemma OverlapsOr(x: bv32, y: bv32, z: bv32)
    ensures Overlaps(x | y, z) <==> Overlaps(x, z) || Overlaps(y, z)
  {
    hide Overlaps;
    if Overlaps(x | y, z) {
      if !Overlaps(x, z) && !Overlaps(y, z) {
        OrMisses(x, y, z);
      }
    } else {
      MissesBoth(x, y, z);
    }
  }

  lemma BitOr(x: bv32, k: bv8, i: bv8)
    requires i < 32
    ensures Bit(x | Shifted(k), i) <==> Bit(x, i) || i == k
  {
    hide Shifted, Overlaps;
    OverlapsOr(x, Shifted(k), Shifted(i));
    ShiftedMeet(k, i);
  }

  lemma BitNot(x: bv32, i: bv8)
    requires i < 32
    ensures Bit(!x, i) <==> !Bit(x, i)
  {
  }

  lemma NoBits(i: bv8)
    requires i < 32
    ensures !Bit(0, i)
  {
  }

  /** The low `k` bits of `x` are zero. */
  predicate LowZero(x: bv32, k: bv8)
    requires k <= 32
  {
    x == (x >> k) << k
  }

  lemma LowZeroStep(x: bv32, k: bv8)
    requires k < 32 && LowZero(x, k) && !Bit(x, k)
    ensures LowZero(x, k + 1)
  {
  }

  lemma LowZeroAll(x: bv32)
    ensures LowZero(x, 0) && (LowZero(x, 32) ==> x == 0)
  {
  }

  /** The index of the lowest set bit, or 32. */
  method TrailingZeros32(x: bv32) returns (k: bv8)
    ensures k <= 32 && (k == 32 <==> x == 0)
    ensures k < 32 ==> Bit(x, k)
    ensures forall j: bv8 :: j < k ==> !Bit(x, j)
  {
    hide LowZero, Bit;
    k := 0;
    LowZeroAll(x);
    while k < 32 && !Bit(x, k)
      invariant k <= 32 && LowZero(x, k)
      invariant forall j: bv8 :: j < k ==> !Bit(x, j)
      decreases 32 - k as int
    {
      LowZeroStep(x, k);
      k := k + 1;
    }
    if x == 0 && k < 32 {
      NoBits(k);
      assert false;
    }
  }

  // ---------------------------------------------------------------------------
  // Choosing a name
  // ---------------------------------------------------------------------------

  datatype Entry = Entry(volume: Name, name: Name)

  /** The names of the volume's replicas are long enough to carry an id, as validated names are. */
  predicate Named(volume: Name, entries: seq<Entry>) {
    forall i :: 0 <= i < |entries| && entries[i].volume == volume ==> |entries[i].name| >= 2
  }

  predicate Holds(e: Entry, volume: Name, id: bv8) {
    e.volume == volume && |e.name| >= 2 && IdFromName(e.name) == id
  }

  /** Some replica of the volume carries the id. */
  ghost predicate Taken(volume: Name, entries: seq<Entry>, id: bv8)
  {
    exists i :: 0 <= i < |entries| && Holds(entries[i], volume, id)
  }

  ghost predicate AllTaken(volume: Name, entries: seq<Entry>)
  {
    forall id: bv8 :: id < 32 ==> Taken(volume, entries, id)
  }

  /** The least id no replica of the volume carries. */
  ghost predicate LeastFree(volume: Name, entries: seq<Entry>, id: bv8)
  {
    id < 32 && !Taken(volume, entries, id) && forall j: bv8 :: j < id ==> Taken(volume, entries, j)
  }

  class Replica {
    const volume: Name
    var name: Name

    constructor (volume: Name, name: Name)
      ensures this.volume == volume && this.name == name
    {
      this.volume, this.name := volume, name;
    }

    function View(): Entry
      reads this
    {
      Entry(volume, name)
    }

    /** False, and no change, when all 32 ids are taken; else the name with the least free id. */
    method ChooseNewName(others: seq<Replica>) returns (ok: bool)
      requires Named(volume, Entries(others))
      modifies this`name
      ensures ok <==> !old(AllTaken(volume, Entries(others)))
      ensures ok ==>
                exists id: bv8 :: id < 32 && old(LeastFree(volume, Entries(others), id))
                                  && name == FormatName(volume, id)
      ensures !ok ==> name == old(name)
    {
      hide IdFromName, FormatName, Bit, Shifted, Taken;
      ghost var entries := Entries(others);
      var reserved := ReservedIds(volume, others);
      var free := !reserved;
      assert forall k: bv8 :: k < 32 ==> (Bit(free, k) <==> !Taken(volume, entries, k)) by {
        forall k: bv8 | k < 32
          ensures Bit(free, k) <==> !Taken(volume, entries, k)
        {
          BitNot(reserved, k);
        }
      }
      var id := TrailingZeros32(free);
      if id == 32 {
        assert forall k: bv8 :: k < 32 ==> !Bit(free, k);
        return false;
      }
      assert LeastFree(volume, entries, id);
      name := FormatName(volume, id);
      return true;
    }
  }

  function Entries(rs: seq<Replica>): (es: seq<Entry>)
    reads rs
    ensures |es| == |rs| && forall i :: 0 <= i < |rs| ==> es[i] == rs[i].View()
  {
    if rs == [] then [] else [rs[0].View()] + Entries(rs[1..])
  }

  ghost predicate MaskIs(mask: bv32, volume: Name, es: seq<Entry>) {
    forall k: bv8 :: k < 32 ==> (Bit(mask, k) <==> Taken(volume, es, k))
  }

  /** The mask of the ids taken by replicas of the volume. */
  method ReservedIds(volume: Name, others: seq<Replica>) returns (reserved: bv32)
    requires Named(volume, Entries(others))
    ensures MaskIs(reserved, volume, Entries(others))
  {
    hide IdFromName, MaskIs, Shifted;
    reserved := 0;
    ghost var es := Entries(others);
    MaskStart(volume);
    for n := 0 to |others|
      invariant MaskIs(reserved, volume, es[..n])
    {
      assert es[n] == others[n].View();
      ghost var before := reserved;
      if others[n].volume == volume {
        reserved := reserved | Shifted(IdFromName(others[n].name));
      }
      MaskStep(volume, es, n, before, reserved);
    }
    assert es[..|others|] == es;
  }

  lemma MaskStart(volume: Name)
    ensures MaskIs(0, volume, [])
  {
    hide Bit;
    forall k: bv8 | k < 32
      ensures !Bit(0, k)
    {
      NoBits(k);
    }
  }

  lemma MaskStep(volume: Name, es: seq<Entry>, n: nat, before: bv32, after: bv32)
    requires n < |es| && Named(volume, es) && MaskIs(before, volume, es[..n])
    requires after == if es[n].volume == volume then before | Shifted(IdFromName(es[n].name)) else before
    ensures MaskIs(after, volume, es[..n + 1])
  {
    hide IdFromName, Bit, Shifted, Taken;
    forall k: bv8 | k < 32
      ensures Bit(after, k) <==> Taken(volume, es[..n + 1], k)
    {
      if es[n].volume == volume {
        BitOr(before, IdFromName(es[n].name), k);
      }
      TakenStep(volume, es, n, k);
    }
  }

  lemma TakenStep(volume: Name, es: seq<Entry>, n: nat, k: bv8)
    requires n < |es|
    ensures Taken(volume, es[..n + 1], k) <==> Taken(volume, es[..n], k) || Holds(es[n], volume, k)
  {
    hide Holds;
    var s, t := es[..n], es[..n + 1];
    if Taken(volume, s, k) {
      var i :| 0 <= i < |s| && Holds(s[i], volume, k);
      assert t[i] == s[i];
    }
    if Holds(es[n], volume, k) {
      assert t[n] == es[n];
    }
    if Taken(volume, t, k) {
      var i :| 0 <= i < |t| && Holds(t[i], volume, k);
      if i < n {
        assert s[i] == t[i];
      }
    }
  }

  // ---------------------------------------------------------------------------
  // Runs of creations and deletions
  // ---------------------------------------------------------------------------

  datatype Step = Create(volume: Name) | Delete(index: nat)

  /** Every live replica carries a formatted name of its volume, and no two names agree. */
  ghost predicate Inv(live: seq<Entry>) {
    && (forall i :: 0 <= i < |live| ==> WellNamed(live[i]))
    && (forall i, j :: 0 <= i < j < |live| ==> live[i].name != live[j].name)
  }

  ghost predicate WellNamed(e: Entry) { exists id: bv8 :: id < 32 && e.name == FormatName(e.volume, id) }

  /** A creation takes the least free id of its volume, and fails without effect when there is none. */
  ghost predicate Next(live: seq<Entry>, step: Step, live': seq<Entry>) {
    match step
    case Create(volume) =>
      if AllTaken(volume, live) then live' == live
      else exists id: bv8 :: LeastFree(volume, live, id) && live' == live + [Entry(volume, FormatName(volume, id))]
    case Delete(index) => index < |live| && live' == live[..index] + live[index + 1..]
  }

  /** A name whose id is free differs from every live name. */
  lemma FreshName(live: seq<Entry>, volume: Name, id: bv8, i: nat)
    requires Inv(live) && id < 32 && !Taken(volume, live, id) && i < |live|
    ensures live[i].name != FormatName(volume, id)
  {
    hide FormatName, IdFromName;
    assert WellNamed(live[i]);
    var k: bv8 :| k < 32 && live[i].name == FormatName(live[i].volume, k);
    IdRoundTrip(live[i].volume, k);
    if live[i].name == FormatName(volume, id) {
      FormatInjective(live[i].volume, k, volume, id);
    }
  }

  lemma CreateKeeps(live: seq<Entry>, volume: Name, id: bv8)
    requires Inv(live) && id < 32 && !Taken(volume, live, id)
    ensures Inv(live + [Entry(volume, FormatName(volume, id))])
  {
    hide FormatName, IdFromName, Taken;
    var e := Entry(volume, FormatName(volume, id));
    IdRoundTrip(volume, id);
    assert WellNamed(e);
    forall i | 0 <= i < |live|
      ensures live[i].name != e.name
    {
      FreshName(live, volume, id, i);
    }
  }

  lemma StepKeeps(live: seq<Entry>, step: Step, live': seq<Entry>)
    requires Inv(live) && Next(live, step, live')
    ensures Inv(live')
  {
    hide FormatName, WellNamed, IdFromName;
    match step
    case Create(volume) =>
      if !AllTaken(volume, live) {
        var id: bv8 :| LeastFree(volume, live, id) && live' == live + [Entry(volume, FormatName(volume, id))];
        CreateKeeps(live, volume, id);
      }
    case Delete(index) =>
      assert forall i :: 0 <= i < |live'| ==> live'[i] == live[if i < index then i else i + 1];
  }

  /** A state, and the steps with the states they lead to. */
  datatype Run = Start(live: seq<Entry>) | Then(run: Run, step: Step, live: seq<Entry>)

  ghost predicate IsRun(run: Run) {
    match run
    case Start(live) => live == []
    case Then(before, step, live) => IsRun(before) && Next(before.live, step, live)
  }

  /** Over any run the live names stay distinct, within a volume and across volumes. */
  lemma {:induction false} RunKeepsNamesDistinct(run: Run)
    requires IsRun(run)
    ensures Inv(run.live)
  {
    match run
    case Start(live) =>
    case Then(before, step, live) =>
      RunKeepsNamesDistinct(before);
      StepKeeps(before.live, step, live);
  }

  // Ids of one volume run out at 32 replicas and not before.

  /** Up to 31 live replicas of a volume always leave an id. */
  lemma RoomBelow32(volume: Name, live: seq<Entry>)
    requires AllTaken(volume, live)
    ensures |live| >= 32
  {
    hide AllTaken;
    var holders := HoldersOf(volume, live, 32);
    InBounds(holders, |live|);
  }

  /** The id of a name as a number; -1 for a name that is too short. */
  ghost function IdNumber(e: Entry): int { if |e.name| >= 2 then IdFromName(e.name) as int else -1 }

  lemma HolderOf(volume: Name, live: seq<Entry>, n: nat) returns (i: nat)
    requires AllTaken(volume, live) && n < 32
    ensures i < |live| && IdNumber(live[i]) == n
  {
    hide IdFromName;
    var id := n as bv8;
    assert Taken(volume, live, id);
    i :| 0 <= i < |live| && Holds(live[i], volume, id);
  }

  /** Distinct replicas for the first `n` ids. */
  lemma {:induction false} HoldersOf(volume: Name, live: seq<Entry>, n: nat) returns (s: set<nat>)
    requires AllTaken(volume, live) && n <= 32
    ensures |s| == n && forall i :: i in s ==> i < |live| && IdNumber(live[i]) < n
  {
    hide AllTaken, IdNumber;
    if n == 0 {
      s := {};
    } else {
      var t := HoldersOf(volume, live, n - 1);
      var i := HolderOf(volume, live, n - 1);
      s := t + {i};
    }
  }

  lemma {:induction false} InBounds(s: set<nat>, n: nat)
    requires forall i :: i in s ==> i < n
    ensures |s| <= n
    decreases n
  {
    if n == 0 {
      assert s == {};
    } else {
      InBounds(s - {n - 1}, n - 1);
    }
  }
}
