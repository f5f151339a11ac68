/** The sixteen-bit set of event kinds a subscriber asks for. */
module EventFilter {

  datatype EventKind =
    | Added | StatusChanged | Completed | Removed | Finishing | SubscriptionChanged
    | SubscriptionRemoved | YtdlOptionsReloaded | ProvidersReloaded | HealthChanged | Notice
  {
    function Bit(): bv16 {
      match this
      case Added => 0x001
      case StatusChanged => 0x002
      case Completed => 0x004
      case Removed => 0x008
      case Finishing => 0x010
      case SubscriptionChanged => 0x020
      case SubscriptionRemoved => 0x040
      case YtdlOptionsReloaded => 0x080
      case ProvidersReloaded => 0x100
      case HealthChanged => 0x200
      case Notice => 0x400
    }
  }

  const ALL_KINDS := [
    Added, StatusChanged, Completed, Removed, Finishing, SubscriptionChanged,
    SubscriptionRemoved, YtdlOptionsReloaded, ProvidersReloaded, HealthChanged, Notice]

  datatype EventFilter = EventFilter(bits: bv16) {
    function With(kind: EventKind): EventFilter { EventFilter(bits | kind.Bit()) }

    function Without(kind: EventKind): EventFilter { EventFilter(bits & !kind.Bit()) }

    predicate Allows(kind: EventKind) { Meets(bits, kind.Bit()) }
  }

  predicate Meets(bits: bv16, x: bv16) { bits & x != 0 }

  const NONE := EventFilter(0)

  lemma SetBit(b: bv16, x: bv16, y: bv16)
    ensures x & y == 0 ==> Meets(b | x, y) == Meets(b, y)
  {}

  lemma ClearBit(b: bv16, x: bv16, y: bv16)
    ensures x & y == 0 ==> Meets(b & !x, y) == Meets(b, y)
  {}

  lemma DisjointBits(kind: EventKind, other: EventKind)
    requires kind != other
    ensures kind.Bit() & other.Bit() == 0
  {}

  lemma OwnBit(f: EventFilter, kind: EventKind)
    ensures f.With(kind).Allows(kind)
    ensures !f.Without(kind).Allows(kind)
  {}

  lemma WithLeavesOthers(f: EventFilter, kind: EventKind, other: EventKind)
    requires kind != other
    ensures f.With(kind).Allows(other) == f.Allows(other)
  {
    DisjointBits(kind, other);
    SetBit(f.bits, kind.Bit(), other.Bit());
  }

  lemma WithoutLeavesOthers(f: EventFilter, kind: EventKind, other: EventKind)
    requires kind != other
    ensures f.Without(kind).Allows(other) == f.Allows(other)
  {
    DisjointBits(kind, other);
    ClearBit(f.bits, kind.Bit(), other.Bit());
  }

  /** The filter over a list admits the listed kinds and no others. */
  method Of(kinds: seq<EventKind>) returns (f: EventFilter)
    ensures forall k :: f.Allows(k) <==> k in kinds
  {
    f := NONE;
    for i := 0 to |kinds|
      invariant forall k :: f.Allows(k) <==> k in kinds[..i]
    {
      forall k
        ensures f.With(kinds[i]).Allows(k) <==> k in kinds[..i + 1]
      {
        OwnBit(f, kinds[i]);
        if k != kinds[i] { WithLeavesOthers(f, kinds[i], k); }
      }
      f := f.With(kinds[i]);
    }
  }

  lemma AllKindsListed(k: EventKind)
    ensures k in ALL_KINDS
  {
    match k {
      case Added => assert ALL_KINDS[0] == k;
      case StatusChanged => assert ALL_KINDS[1] == k;
      case Completed => assert ALL_KINDS[2] == k;
      case Removed => assert ALL_KINDS[3] == k;
      case Finishing => assert ALL_KINDS[4] == k;
      case SubscriptionChanged => assert ALL_KINDS[5] == k;
      case SubscriptionRemoved => assert ALL_KINDS[6] == k;
      case YtdlOptionsReloaded => assert ALL_KINDS[7] == k;
      case ProvidersReloaded => assert ALL_KINDS[8] == k;
      case HealthChanged => assert ALL_KINDS[9] == k;
      case Notice => assert ALL_KINDS[10] == k;
    }
  }

  /** The aggregator's filter: everything but the one event that is not on the wire. */
  method Aggregator() returns (f: EventFilter)
    ensures forall k :: f.Allows(k) <==> k != Finishing
  {
    var all := Of(ALL_KINDS);
    forall k
      ensures all.Without(Finishing).Allows(k) <==> k != Finishing
    {
      AllKindsListed(k);
      OwnBit(all, Finishing);
      if k != Finishing { WithoutLeavesOthers(all, Finishing, k); }
    }
    f := all.Without(Finishing);
  }
}
