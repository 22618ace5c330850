/**
 Translating an id of the container to one of the host (libcontainer/configs/config_linux.go), and
 printing id mappings for the kernel (encodeIDMapping in libcontainer/container_linux.go).
 */
module HostIds {
  import opened Wrappers
  import opened Decimal
  import opened Separated
  import opened UsernsHandles

  /** The arithmetic of Go's int64. */
  function Wrap64(x: int): int {
    (x + 0x8000_0000_0000_0000) % 0x1_0000_0000_0000_0000 - 0x8000_0000_0000_0000
  }

  predicate Contains(m: IdMap, id: int) {
    m.containerId <= id <= Wrap64(Wrap64(m.containerId + m.size) - 1)
  }

  function HostOf(m: IdMap, id: int): int { Wrap64(m.hostId + Wrap64(id - m.containerId)) }

  /** The first entry that contains the id decides. */
  function Lookup(id: int, ms: seq<IdMap>): Option<int> {
    if ms == [] then None
    else if Contains(ms[0], id) then Some(HostOf(ms[0], id))
    else Lookup(id, ms[1..])
  }

  datatype HostId = Id(id: int) | NoMappings | NotMapped | TooLarge

  /** Ids of the host are of the native int. */
  function Native(host: int, maxInt: int): HostId { if host > maxInt then TooLarge else Id(host) }

  function HostUid(newUser: bool, ms: seq<IdMap>, maxInt: int, id: int): HostId {
    if !newUser then Id(id)
    else if ms == [] then NoMappings
    else
      match Lookup(id, ms)
      case None => NotMapped
      case Some(host) => Native(host, maxInt)
  }

  /** The numbers of an entry are int64, and its two ranges do not go past the largest one. */
  predicate Fits(m: IdMap) {
    && 0 <= m.containerId && 0 <= m.hostId && 0 <= m.size
    && m.containerId + m.size < 0x8000_0000_0000_0000 && m.hostId + m.size < 0x8000_0000_0000_0000
  }

  /** The range of an entry has the id. */
  ghost predicate InRange(m: IdMap, id: int) { m.containerId <= id < m.containerId + m.size }

  /** An entry maps the ids of its range to those of the host in order. */
  lemma EntryMeans(m: IdMap, id: int)
    requires Fits(m)
    ensures Contains(m, id) <==> m.containerId <= id < m.containerId + m.size
    ensures Contains(m, id) ==> HostOf(m, id) == m.hostId + (id - m.containerId)
  {
  }

  /** A size that takes the range past the largest number makes the entry contain nothing. */
  lemma WrappedContainsNothing(m: IdMap, id: int)
    requires 0 <= m.containerId < 0x8000_0000_0000_0000 && 0 <= m.size < 0x8000_0000_0000_0000
    requires m.containerId + m.size > 0x8000_0000_0000_0000
    ensures !Contains(m, id)
  {
  }

  lemma {:induction false} LookupNone(ms: seq<IdMap>, id: int)
    requires forall k :: 0 <= k < |ms| ==> Fits(ms[k])
    ensures Lookup(id, ms).None? <==> forall k :: 0 <= k < |ms| ==> !InRange(ms[k], id)
  {
    hide Contains, HostOf, InRange;
    if ms != [] {
      RangeIs(ms[0], id);
      LookupNone(ms[1..], id);
      if !InRange(ms[0], id) { NotInFirst(ms, id); }
    }
  }

  lemma RangeIs(m: IdMap, id: int)
    requires Fits(m)
    ensures Contains(m, id) <==> InRange(m, id)
    ensures InRange(m, id) ==> HostOf(m, id) == m.hostId + (id - m.containerId)
  {
    EntryMeans(m, id);
    hide Contains, HostOf;
  }

  lemma {:induction false} LookupFirst(ms: seq<IdMap>, id: int, k: nat)
    requires k < |ms| && InRange(ms[k], id)
    requires forall j :: 0 <= j <= k ==> Fits(ms[j]) && (j < k ==> !InRange(ms[j], id))
    ensures Lookup(id, ms) == Some(ms[k].hostId + (id - ms[k].containerId))
  {
    hide Contains, HostOf, InRange;
    RangeIs(ms[0], id);
    if k > 0 {
      assert forall j :: 0 <= j <= k - 1 ==> ms[1..][j] == ms[j + 1];
      LookupFirst(ms[1..], id, k - 1);
    }
  }

  /** What is answered in a user namespace: the first range that has the id decides. */
  lemma HostUidMeans(ms: seq<IdMap>, maxInt: int, id: int)
    requires forall k :: 0 <= k < |ms| ==> Fits(ms[k])
    ensures var r := HostUid(true, ms, maxInt, id);
      && (r == NoMappings <==> ms == [])
      && (r == NotMapped <==> ms != [] && forall k :: 0 <= k < |ms| ==> !InRange(ms[k], id))
      && (forall k | 0 <= k < |ms| && InRange(ms[k], id) && (forall j :: 0 <= j < k ==> !InRange(ms[j], id)) ::
            var host := ms[k].hostId + (id - ms[k].containerId);
            r == if host > maxInt then TooLarge else Id(host))
  {
    hide Lookup, InRange;
    LookupNone(ms, id);
    forall k | 0 <= k < |ms| && InRange(ms[k], id) && (forall j :: 0 <= j < k ==> !InRange(ms[j], id))
      ensures Lookup(id, ms) == Some(ms[k].hostId + (id - ms[k].containerId))
    {
      LookupFirst(ms, id, k);
    }
  }

  lemma NotInFirst(ms: seq<IdMap>, id: int)
    requires ms != [] && !InRange(ms[0], id)
    ensures (forall k :: 0 <= k < |ms| ==> !InRange(ms[k], id)) <==>
      forall k :: 0 <= k < |ms[1..]| ==> !InRange(ms[1..][k], id)
  {
    hide InRange;
    if forall k :: 0 <= k < |ms[1..]| ==> !InRange(ms[1..][k], id) {
      forall k | 0 <= k < |ms| ensures !InRange(ms[k], id) { if k > 0 { assert ms[k] == ms[1..][k - 1]; } }
    }
  }

  /** The answer comes from an entry that contains the id, and there is one if any entry does. */
  lemma {:induction false} LookupFinds(id: int, ms: seq<IdMap>)
    ensures Lookup(id, ms).Some? ==> exists m <- ms :: Contains(m, id) && Lookup(id, ms).value == HostOf(m, id)
    ensures Lookup(id, ms).None? <==> forall m <- ms :: !Contains(m, id)
  {
    if ms != [] && !Contains(ms[0], id) {
      LookupFinds(id, ms[1..]);
      assert forall m <- ms :: m == ms[0] || m in ms[1..];
    }
  }

  /** Any two entries that contain the id say the same about it. */
  ghost predicate Agree(id: int, maxInt: int, ms: seq<IdMap>) {
    forall a, b :: a in ms && b in ms && Contains(a, id) && Contains(b, id) ==>
      Native(HostOf(a, id), maxInt) == Native(HostOf(b, id), maxInt)
  }

  ghost predicate OrderIrrelevant(newUser: bool, id: int, maxInt: int, ms: seq<IdMap>) {
    forall ms' :: multiset(ms') == multiset(ms) ==>
      HostUid(newUser, ms', maxInt, id) == HostUid(newUser, ms, maxInt, id)
  }

  lemma SameElements(a: seq<IdMap>, b: seq<IdMap>)
    requires multiset(a) == multiset(b)
    ensures forall m :: m in a <==> m in b
    ensures a == [] <==> b == []
  {
    forall m ensures m in a <==> m in b {
      assert m in a <==> m in multiset(a);
      assert m in b <==> m in multiset(b);
    }
  }

  lemma AgreeingLookup(id: int, maxInt: int, ms: seq<IdMap>, ms': seq<IdMap>)
    requires Agree(id, maxInt, ms) && multiset(ms') == multiset(ms)
    ensures HostUid(true, ms', maxInt, id) == HostUid(true, ms, maxInt, id)
  {
    SameElements(ms', ms);
    LookupFinds(id, ms);
    LookupFinds(id, ms');
    hide Contains, HostOf, Lookup, Native;
  }

  /** An entry can be moved to the front. */
  lemma ToFront(ms: seq<IdMap>, m: IdMap) returns (ms': seq<IdMap>)
    requires m in ms
    ensures multiset(ms') == multiset(ms) && ms' != [] && ms'[0] == m
  {
    var i :| 0 <= i < |ms| && ms[i] == m;
    ms' := [m] + ms[..i] + ms[i + 1..];
    assert ms == ms[..i] + [m] + ms[i + 1..];
  }

  /**
   The order of the entries does not matter to an id if and only if there is no user namespace, or all
   entries that contain the id give the same answer, be it an id of the host or that it is too large.
   */
  lemma OrderIrrelevantIff(newUser: bool, id: int, maxInt: int, ms: seq<IdMap>)
    ensures OrderIrrelevant(newUser, id, maxInt, ms) <==> !newUser || Agree(id, maxInt, ms)
  {
    if newUser {
      if Agree(id, maxInt, ms) {
        forall ms' | multiset(ms') == multiset(ms)
          ensures HostUid(true, ms', maxInt, id) == HostUid(true, ms, maxInt, id)
        {
          AgreeingLookup(id, maxInt, ms, ms');
        }
      } else {
        hide HostOf, Native;
        var a, b :| a in ms && b in ms && Contains(a, id) && Contains(b, id)
          && Native(HostOf(a, id), maxInt) != Native(HostOf(b, id), maxInt);
        hide Contains;
        var first := ToFront(ms, a);
        var second := ToFront(ms, b);
        assert HostUid(true, first, maxInt, id) == Native(HostOf(a, id), maxInt);
        assert HostUid(true, second, maxInt, id) == Native(HostOf(b, id), maxInt);
      }
    }
  }

  /** No id is in two entries. */
  ghost predicate Disjoint(ms: seq<IdMap>) {
    forall i, j, id :: 0 <= i < j < |ms| ==> !(Contains(ms[i], id) && Contains(ms[j], id))
  }

  /** With disjoint entries the order never matters. */
  lemma DisjointOrderIrrelevant(newUser: bool, id: int, maxInt: int, ms: seq<IdMap>)
    requires Disjoint(ms)
    ensures OrderIrrelevant(newUser, id, maxInt, ms)
  {
    forall a, b | a in ms && b in ms && Contains(a, id) && Contains(b, id)
      ensures HostOf(a, id) == HostOf(b, id)
    {
      var i :| 0 <= i < |ms| && ms[i] == a;
      var j :| 0 <= j < |ms| && ms[j] == b;
      assert i == j;
    }
    OrderIrrelevantIff(newUser, id, maxInt, ms);
  }

  // ----- printing the maps -----

  function Line(m: IdMap): string { Triple(m, ' ') }

  function Encoded(ms: seq<IdMap>): string {
    if ms == [] then [] else Line(ms[0]) + ['\n'] + Encoded(ms[1..])
  }

  lemma LineInjective(a: IdMap, b: IdMap)
    ensures '\n' !in Line(a)
    ensures Line(a) == Line(b) ==> a == b
  {
    hide Triple;
    TripleLacks(a, ' ', '\n');
    if Line(a) == Line(b) { TripleInjective(a, b, ' '); }
  }

  /** The printed maps determine the list, order included. */
  lemma {:induction false} EncodedInjective(a: seq<IdMap>, b: seq<IdMap>)
    requires Encoded(a) == Encoded(b)
    ensures a == b
  {
    hide Line;
    if a != [] && b != [] {
      LineInjective(a[0], b[0]);
      LineInjective(b[0], a[0]);
      SplitAt(Line(a[0]), Encoded(a[1..]), Line(b[0]), Encoded(b[1..]), '\n');
      EncodedInjective(a[1..], b[1..]);
      assert a == [a[0]] + a[1..] && b == [b[0]] + b[1..];
    }
  }

  lemma EncodedStep(ms: seq<IdMap>, i: nat)
    requires i < |ms|
    ensures Encoded(ms[i..]) == Line(ms[i]) + ['\n'] + Encoded(ms[i + 1..])
  {
    hide Line;
    assert ms[i..][1..] == ms[i + 1..];
  }

  lemma EncodedEnds(ms: seq<IdMap>)
    ensures ms[0..] == ms && Encoded(ms[|ms|..]) == []
  {
    hide Line;
  }

  /** A line as newuidmap(1) and the kernel read it. */
  lemma LineIs(m: IdMap)
    ensures Line(m) + ['\n'] == Print(m.containerId) + " " + Print(m.hostId) + " " + Print(m.size) + "\n"
  {
    hide Print;
  }

  method EncodeIdMapping(ms: seq<IdMap>) returns (data: string)
    ensures data == Encoded(ms)
  {
    hide *;
    data := [];
    EncodedEnds(ms);
    var i := 0;
    while i < |ms|
      invariant i <= |ms| && Encoded(ms) == data + Encoded(ms[i..])
    {
      EncodedStep(ms, i);
      LineIs(ms[i]);
      var line := Print(ms[i].containerId) + " " + Print(ms[i].hostId) + " " + Print(ms[i].size) + "\n";
      data := data + line;
      i := i + 1;
    }
  }
}
