/** The two shared S3 objects of one HA group (internal/store/coord.go): a fencing token that
    is overwritten unconditionally and a handoff record that is replaced by compare-and-swap
    on its ETag. */
module Coord {
  import opened Wrappers

  type ClusterId = string

  const INT64_MAX: int := 0x7FFF_FFFF_FFFF_FFFF
  const INT64_MIN: int := -0x8000_0000_0000_0000

  predicate IsInt64(n: int) {
    INT64_MIN <= n <= INT64_MAX
  }

  /** Go's int64 arithmetic wraps around. */
  function WrapInt64(n: int): (r: int)
    ensures INT64_MIN <= r <= INT64_MAX
    ensures INT64_MIN <= n <= INT64_MAX ==> r == n
    ensures n == INT64_MAX + 1 ==> r == INT64_MIN
  {
    (n - INT64_MIN) % 0x1_0000_0000_0000_0000 + INT64_MIN
  }

  datatype Phase = Stable | Released | OtherPhase(text: string)

  datatype RecoveryPointRef = RecoveryPointRef(path: string, kind: string)

  datatype HandoffRecord = HandoffRecord(
    activeClusterId: ClusterId,
    epoch: int,
    phase: Phase,
    recoveryPoint: RecoveryPointRef,
    releasedBy: ClusterId)

  /** `NoTag` is the empty string the code keeps for a record that does not exist yet. */
  datatype ETag = NoTag | Tag(version: nat)

  datatype Stored = Stored(record: HandoffRecord, etag: ETag)

  /** `writes` counts accepted handoff writes, so that every write gets a fresh ETag. */
  datatype Store = Store(token: string, handoff: Option<Stored>, writes: nat)

  datatype WriteResult = WriteOk | Conflict | WriteFailed

  function CurrentTag(store: Store): ETag {
    if store.handoff.Some? then store.handoff.value.etag else NoTag
  }

  function CurrentRecord(store: Store): Option<HandoffRecord> {
    if store.handoff.Some? then Some(store.handoff.value.record) else None
  }

  function Put(store: Store, record: HandoffRecord): Store {
    store.(handoff := Some(Stored(record, Tag(store.writes + 1))), writes := store.writes + 1)
  }

  /** Does a compare-and-swap against `expected` take effect? */
  predicate Accepts(store: Store, expected: ETag, delivery: Delivery) {
    !delivery.Lost? && CurrentTag(store) == expected
  }

  function CasStore(store: Store, record: HandoffRecord, expected: ETag, delivery: Delivery): Store {
    if Accepts(store, expected, delivery) then Put(store, record) else store
  }

  function CasResult(store: Store, expected: ETag, delivery: Delivery): WriteResult {
    if !delivery.Delivered? then WriteFailed
    else if CurrentTag(store) == expected then WriteOk
    else Conflict
  }

  function TokenStore(store: Store, value: string, delivery: Delivery): Store {
    if delivery.Lost? then store else store.(token := value)
  }

  /** The stable record names `side` as the active cluster. */
  predicate Owns(store: Store, side: ClusterId) {
    && store.handoff.Some?
    && store.handoff.value.record.phase.Stable?
    && store.handoff.value.record.activeClusterId == side
  }

  /** Every stored record carries a real ETag that an accepted write produced. */
  predicate ValidStore(store: Store) {
    store.handoff.Some? ==> store.handoff.value.etag.Tag? && store.handoff.value.etag.version <= store.writes
  }

  /** The store as the S3 client sees it: two objects that requests overwrite in place. */
  class Backend {
    var token: string
    var handoff: Option<Stored>
    var writes: nat

    function View(): Store
      reads this
    {
      Store(token, handoff, writes)
    }

    constructor ()
      ensures View() == Store("", None, 0)
    {
      token, handoff, writes := "", None, 0;
    }

    /** A PUT with optional conditional headers: `ifMatch` demands the current ETag, and
        `createOnly` (If-None-Match: *) demands that the object does not exist. */
    method PutObjectCond(record: HandoffRecord, ifMatch: ETag, createOnly: bool, delivery: Delivery)
      returns (r: WriteResult)
      modifies this
      ensures
        var holds := (ifMatch.Tag? ==> CurrentTag(old(View())) == ifMatch) && (createOnly ==> old(handoff).None?);
        && View() == (if !delivery.Lost? && holds then Put(old(View()), record) else old(View()))
        && r == (if !delivery.Delivered? then WriteFailed else if holds then WriteOk else Conflict)
    {
      if delivery.Lost? {
        return WriteFailed;
      }
      if ifMatch.Tag? && (handoff.None? || handoff.value.etag != ifMatch) {
        return if delivery.Delivered? then Conflict else WriteFailed;
      }
      if createOnly && handoff.Some? {
        return if delivery.Delivered? then Conflict else WriteFailed;
      }
      writes := writes + 1;
      handoff := Some(Stored(record, Tag(writes)));
      return if delivery.Delivered? then WriteOk else WriteFailed;
    }

    /** The empty ETag becomes a create-only write, any other ETag an If-Match write. */
    method WriteHandoffCAS(record: HandoffRecord, expected: ETag, delivery: Delivery) returns (r: WriteResult)
      requires ValidStore(View())
      modifies this
      ensures ValidStore(View())
      ensures View() == CasStore(old(View()), record, expected, delivery)
      ensures r == CasResult(old(View()), expected, delivery)
    {
      if expected.NoTag? {
        r := PutObjectCond(record, NoTag, true, delivery);
      } else {
        r := PutObjectCond(record, expected, false, delivery);
      }
    }

    method WriteToken(value: string, delivery: Delivery) returns (ok: bool)
      modifies this`token
      ensures View() == TokenStore(old(View()), value, delivery)
      ensures ok <==> delivery.Delivered?
    {
      if !delivery.Lost? {
        token := value;
      }
      ok := delivery.Delivered?;
    }

    method ReadHandoffWithETag(delivery: Delivery) returns (held: Option<HandoffRecord>, etag: ETag, ok: bool)
      ensures ok <==> delivery.Delivered?
      ensures held == (if ok then CurrentRecord(View()) else None)
      ensures etag == (if ok then CurrentTag(View()) else NoTag)
    {
      if !delivery.Delivered? {
        return None, NoTag, false;
      }
      return if handoff.Some? then Some(handoff.value.record) else None,
             if handoff.Some? then handoff.value.etag else NoTag,
             true;
    }
  }
}
