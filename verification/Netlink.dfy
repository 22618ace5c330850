/**
 The bootstrap message in netlink format: the Go writers (libcontainer/message_linux.go and the
 request they are added to) and the C parser (nl_parse in libcontainer/nsenter/nsexec.c). Both sides
 use the byte order of the host.
 */
module Netlink {
  import opened Wrappers

  const UINT16_MAX: nat := 0xffff
  const UINT32_MAX: nat := 0xffff_ffff
  const NLA_HDRLEN: nat := 4
  const NLMSG_HDRLEN: nat := 16
  const NLM_F_REQUEST: nat := 1

  const INIT_MSG: nat := 62000
  const CLONE_FLAGS_ATTR: nat := 27281
  const NS_PATHS_ATTR: nat := 27282
  const UIDMAP_ATTR: nat := 27283
  const GIDMAP_ATTR: nat := 27284
  const SETGROUP_ATTR: nat := 27285
  const OOM_SCORE_ADJ_ATTR: nat := 27286
  const ROOTLESS_EUID_ATTR: nat := 27287
  const UIDMAPPATH_ATTR: nat := 27288
  const GIDMAPPATH_ATTR: nat := 27289
  const TIMENSOFFSET_ATTR: nat := 27290

  // ----- numbers in the byte order of the host -----

  function U16(n: nat, big: bool): (r: seq<byte>)
    requires n <= UINT16_MAX
    ensures |r| == 2 && ReadU16(r, big) == n
  {
    if big then [n / 256, n % 256] else [n % 256, n / 256]
  }

  function ReadU16(b: seq<byte>, big: bool): nat
    requires |b| >= 2
  {
    if big then (b[0] as int) * 256 + b[1] else (b[1] as int) * 256 + b[0]
  }

  function U32(n: nat, big: bool): (r: seq<byte>)
    requires n <= UINT32_MAX
    ensures |r| == 4 && ReadU32(r, big) == n
  {
    var high, low := n / 65536, n % 65536;
    if big then U16(high, big) + U16(low, big) else U16(low, big) + U16(high, big)
  }

  function ReadU32(b: seq<byte>, big: bool): nat
    requires |b| >= 4
  {
    if big then ReadU16(b[..2], big) * 65536 + ReadU16(b[2..4], big)
    else ReadU16(b[2..4], big) * 65536 + ReadU16(b[..2], big)
  }

  function Align(n: nat): nat { (n + 3) / 4 * 4 }

  lemma AlignHeader(n: nat)
    ensures Align(NLA_HDRLEN + n) == NLA_HDRLEN + Align(n) && n <= Align(n)
  {
  }

  function Zeros(n: nat): seq<byte> { seq(n, _ => 0) }

  // ----- writing attributes -----

  datatype Attr =
    | Int32msg(typ: nat, value: nat)
    | Bytemsg(typ: nat, bytes: seq<byte>)
    | Boolmsg(typ: nat, flag: bool)
  {
    predicate Valid() {
      typ <= UINT16_MAX && (Int32msg? ==> value <= UINT32_MAX)
    }

    function Len(): nat {
      if Bytemsg? then NLA_HDRLEN + |bytes| + 1 else NLA_HDRLEN + 4
    }
  }

  /** The bytes after the attribute's header, padding included. */
  function Body(a: Attr, big: bool): (r: seq<byte>)
    requires a.Valid()
    ensures |r| == Align(a.Len() - NLA_HDRLEN)
  {
    match a
    case Int32msg(_, v) => U32(v, big)
    case Boolmsg(_, f) => U32(if f then 1 else 0, big)
    case Bytemsg(_, v) => v + Zeros(Align(|v| + 1) - |v|)
  }

  function Wire(a: Attr, big: bool): (r: seq<byte>)
    requires a.Valid() && a.Len() <= UINT16_MAX
    ensures |r| == Align(a.Len())
  {
    AlignHeader(a.Len() - NLA_HDRLEN);
    U16(a.Len(), big) + U16(a.typ, big) + Body(a, big)
  }

  method PutUint16(buf: array<byte>, at: nat, n: nat, big: bool)
    requires at + 2 <= buf.Length && n <= UINT16_MAX
    modifies buf
    ensures buf[..] == old(buf[..at]) + U16(n, big) + old(buf[at + 2..])
  {
    if big {
      buf[at], buf[at + 1] := n / 256, n % 256;
    } else {
      buf[at], buf[at + 1] := n % 256, n / 256;
    }
  }

  method PutUint32(buf: array<byte>, at: nat, n: nat, big: bool)
    requires at + 4 <= buf.Length && n <= UINT32_MAX
    modifies buf
    ensures buf[..] == old(buf[..at]) + U32(n, big) + old(buf[at + 4..])
  {
    if big {
      PutUint16(buf, at, n / 65536, big);
      PutUint16(buf, at + 2, n % 65536, big);
    } else {
      PutUint16(buf, at, n % 65536, big);
      PutUint16(buf, at + 2, n / 65536, big);
    }
  }

  /** The length and the type in front of an attribute. */
  method PutHeader(buf: array<byte>, a: Attr, big: bool)
    requires NLA_HDRLEN <= buf.Length && a.Valid() && a.Len() <= UINT16_MAX
    modifies buf
    ensures buf[..4] == U16(a.Len(), big) + U16(a.typ, big)
    ensures forall k :: 4 <= k < buf.Length ==> buf[k] == old(buf[k])
  {
    hide U16;
    PutUint16(buf, 0, a.Len(), big);
    PutUint16(buf, 2, a.typ, big);
  }

  /** A 32-bit number, or a boolean widened to one. */
  method SerializeWord(a: Attr, big: bool) returns (r: seq<byte>)
    requires a.Valid() && !a.Bytemsg?
    ensures r == Wire(a, big)
  {
    var buf := new byte[NLA_HDRLEN + 4];
    PutHeader(buf, a, big);
    if a.Int32msg? {
      PutUint32(buf, 4, a.value, big);
    } else if a.flag {
      PutUint32(buf, 4, 1, big);
    } else {
      PutUint32(buf, 4, 0, big);
    }
    r := buf[..];
  }

  method Copy(buf: array<byte>, at: nat, v: seq<byte>)
    requires at + |v| <= buf.Length
    modifies buf
    ensures forall k :: 0 <= k < buf.Length ==> buf[k] == if at <= k < at + |v| then v[k - at] else old(buf[k])
  {
    var i := 0;
    while i < |v|
      invariant i <= |v|
      invariant forall k :: 0 <= k < buf.Length ==> buf[k] == if at <= k < at + i then v[k - at] else old(buf[k])
    {
      buf[at + i] := v[i];
      i := i + 1;
    }
  }

  /** Bytes, a terminating zero and padding; a value whose length does not fit is the only error. */
  method SerializeBytes(a: Attr, big: bool) returns (r: Option<seq<byte>>)
    requires a.Valid() && a.Bytemsg?
    ensures r.None? <==> |a.bytes| > UINT16_MAX - NLA_HDRLEN - 1
    ensures r.Some? ==> r.value == Wire(a, big)
  {
    hide Align, U16;
    if a.Len() > UINT16_MAX {
      return None;
    }
    AlignHeader(|a.bytes| + 1);
    var size := Align(a.Len());
    var buf := new byte[size](_ => 0);
    PutHeader(buf, a, big);
    ghost var header := buf[..4];
    Copy(buf, 4, a.bytes);
    assert buf[..4] == header;
    assert forall k :: 0 <= k < size - 4 ==> buf[4 + k] == Body(a, big)[k];
    assert buf[4..] == Body(a, big);
    assert buf[..] == buf[..4] + buf[4..];
    r := Some(buf[..]);
  }

  // ----- writing a request -----

  predicate Sendable(a: Attr) { a.Valid() && a.Len() <= UINT16_MAX }

  predicate AllSendable(attrs: seq<Attr>) { forall i :: 0 <= i < |attrs| ==> Sendable(attrs[i]) }

  function PayloadFrom(attrs: seq<Attr>, i: nat, big: bool): seq<byte>
    requires AllSendable(attrs) && i <= |attrs|
    decreases |attrs| - i
  {
    if i == |attrs| then [] else Wire(attrs[i], big) + PayloadFrom(attrs, i + 1, big)
  }

  function Payload(attrs: seq<Attr>, big: bool): seq<byte>
    requires AllSendable(attrs)
  {
    PayloadFrom(attrs, 0, big)
  }

  lemma {:induction false} PayloadLength(attrs: seq<Attr>, i: nat, big: bool)
    requires AllSendable(attrs) && i <= |attrs|
    ensures |PayloadFrom(attrs, i, big)| <= (UINT16_MAX + 1) * (|attrs| - i)
    decreases |attrs| - i
  {
    if i < |attrs| {
      assert Sendable(attrs[i]) && Align(attrs[i].Len()) <= UINT16_MAX + 1;
      hide Align, Sendable, Wire;
      PayloadLength(attrs, i + 1, big);
    }
  }

  function Header(length: nat, sequence: nat, big: bool): (r: seq<byte>)
    requires length <= UINT32_MAX && sequence <= UINT32_MAX
    ensures |r| == NLMSG_HDRLEN
  {
    U32(length, big) + U16(INIT_MSG, big) + U16(NLM_F_REQUEST, big) + U32(sequence, big) + U32(0, big)
  }

  function Message(attrs: seq<Attr>, sequence: nat, big: bool): seq<byte>
    requires AllSendable(attrs) && sequence <= UINT32_MAX && |attrs| < 65536
  {
    PayloadLength(attrs, 0, big);
    Header(NLMSG_HDRLEN + |Payload(attrs, big)|, sequence, big) + Payload(attrs, big)
  }

  method SerializeAttr(a: Attr, big: bool) returns (r: Option<seq<byte>>)
    requires a.Valid()
    ensures r.Some? <==> Sendable(a)
    ensures r.Some? ==> r.value == Wire(a, big)
  {
    if a.Bytemsg? {
      r := SerializeBytes(a, big);
    } else {
      var bytes := SerializeWord(a, big);
      r := Some(bytes);
    }
  }

  lemma PayloadStep(attrs: seq<Attr>, i: nat, big: bool)
    requires AllSendable(attrs) && i < |attrs|
    ensures PayloadFrom(attrs, i, big) == Wire(attrs[i], big) + PayloadFrom(attrs, i + 1, big)
  {
    hide Wire, Sendable;
  }

  lemma PayloadEnds(attrs: seq<Attr>, big: bool)
    requires AllSendable(attrs)
    ensures Payload(attrs, big) == PayloadFrom(attrs, 0, big) && PayloadFrom(attrs, |attrs|, big) == []
  {
    hide Wire, Sendable;
  }

  /** Serializes every attribute in turn. */
  method SerializePayload(attrs: seq<Attr>, big: bool) returns (r: Option<seq<byte>>)
    requires forall i :: 0 <= i < |attrs| ==> attrs[i].Valid()
    ensures r.Some? <==> AllSendable(attrs)
    ensures r.Some? ==> r.value == Payload(attrs, big)
  {
    hide Wire, Sendable, PayloadFrom, Payload;
    var data: seq<byte> := [];
    if AllSendable(attrs) { PayloadEnds(attrs, big); }
    var i := 0;
    while i < |attrs|
      invariant i <= |attrs|
      invariant forall k :: 0 <= k < i ==> Sendable(attrs[k])
      invariant AllSendable(attrs) ==> Payload(attrs, big) == data + PayloadFrom(attrs, i, big)
    {
      var bytes := SerializeAttr(attrs[i], big);
      if bytes.None? {
        return None;
      }
      if AllSendable(attrs) { PayloadStep(attrs, i, big); }
      data := data + bytes.value;
      i := i + 1;
    }
    r := Some(data);
  }

  lemma PayloadFits(attrs: seq<Attr>, big: bool)
    requires AllSendable(attrs) && |attrs| < 65535
    ensures NLMSG_HDRLEN + |Payload(attrs, big)| <= UINT32_MAX
  {
    hide PayloadFrom, AllSendable;
    PayloadLength(attrs, 0, big);
  }

  /** The total length goes into the header. */
  method SerializeRequest(attrs: seq<Attr>, sequence: nat, big: bool) returns (r: Option<seq<byte>>)
    requires (forall i :: 0 <= i < |attrs| ==> attrs[i].Valid()) && sequence <= UINT32_MAX && |attrs| < 65535
    ensures r.Some? <==> AllSendable(attrs)
    ensures r.Some? ==> r.value == Message(attrs, sequence, big)
  {
    hide Header, Payload, PayloadFrom, AllSendable, U16, U32;
    var data := SerializePayload(attrs, big);
    if data.None? {
      return None;
    }
    PayloadFits(attrs, big);
    r := Some(Header(NLMSG_HDRLEN + |data.value|, sequence, big) + data.value);
  }

  // ----- parsing -----

  /** The settings of the C side. Byte attributes are kept with their terminating zero. */
  datatype NlConfig = NlConfig(
    cloneflags: nat, isSetgroup: byte, isRootlessEuid: byte,
    oomScoreAdj: Option<seq<byte>>, namespaces: Option<seq<byte>>,
    uidmap: Option<seq<byte>>, gidmap: Option<seq<byte>>,
    uidmappath: Option<seq<byte>>, gidmappath: Option<seq<byte>>,
    timensoffset: Option<seq<byte>>)

  const NOTHING: NlConfig := NlConfig(0, 0, 0, None, None, None, None, None, None, None)

  /** `OutOfBounds` stands for a read past the end of the data, against which the C side has no check. */
  datatype ParseError = UnexpectedType | ShortRead | UnknownAttr | OutOfBounds

  datatype Parsed = Bad(e: ParseError) | Good(config: NlConfig, beyond: nat)

  /** The switch on the attribute's type. */
  function Handle(c: NlConfig, typ: nat, payload: seq<byte>, big: bool): (r: Parsed)
    ensures r.Good? ==> r.beyond == 0
  {
    if typ == CLONE_FLAGS_ATTR then
      if |payload| < 4 then Bad(OutOfBounds) else Good(c.(cloneflags := ReadU32(payload, big)), 0)
    else if typ == ROOTLESS_EUID_ATTR then
      if |payload| < 1 then Bad(OutOfBounds) else Good(c.(isRootlessEuid := payload[0]), 0)
    else if typ == OOM_SCORE_ADJ_ATTR then Good(c.(oomScoreAdj := Some(payload)), 0)
    else if typ == NS_PATHS_ATTR then Good(c.(namespaces := Some(payload)), 0)
    else if typ == UIDMAP_ATTR then Good(c.(uidmap := Some(payload)), 0)
    else if typ == GIDMAP_ATTR then Good(c.(gidmap := Some(payload)), 0)
    else if typ == UIDMAPPATH_ATTR then Good(c.(uidmappath := Some(payload)), 0)
    else if typ == GIDMAPPATH_ATTR then Good(c.(gidmappath := Some(payload)), 0)
    else if typ == SETGROUP_ATTR then
      if |payload| < 1 then Bad(OutOfBounds) else Good(c.(isSetgroup := payload[0]), 0)
    else if typ == TIMENSOFFSET_ATTR then Good(c.(timensoffset := Some(payload)), 0)
    else Bad(UnknownAttr)
  }

  /** Parsing what is left of the data; `beyond` is how far past its end the last attribute reaches. */
  function Parse(data: seq<byte>, c: NlConfig, big: bool): Parsed {
    if data == [] then Good(c, 0)
    else if |data| < NLA_HDRLEN then Bad(OutOfBounds)
    else
      var len := ReadU16(data[..2], big);
      if len < NLA_HDRLEN || |data| < len then Bad(OutOfBounds)
      else
        var h := Handle(c, ReadU16(data[2..4], big), data[4..len], big);
        var next := NLA_HDRLEN + Align(len - NLA_HDRLEN);
        if h.Bad? then h
        else if next >= |data| then Good(h.config, next - |data|)
        else Parse(data[next..], h.config, big)
  }

  function ParseMessage(stream: seq<byte>, big: bool): Parsed {
    if |stream| < NLMSG_HDRLEN then Bad(ShortRead)
    else if ReadU16(stream[4..6], big) != INIT_MSG then Bad(UnexpectedType)
    else
      var length := ReadU32(stream[..4], big);
      if length < NLMSG_HDRLEN || |stream| < length then Bad(ShortRead)
      else Parse(stream[NLMSG_HDRLEN..length], NOTHING, big)
  }

  datatype Step = Stop(p: Parsed) | Go(config: NlConfig, next: nat)

  /** The body of the loop: the attribute at a position of the data. */
  function StepAt(data: seq<byte>, current: nat, c: NlConfig, big: bool): (r: Step)
    requires current < |data|
    ensures r.Go? ==> r.next > current
  {
    if |data| - current < NLA_HDRLEN then Stop(Bad(OutOfBounds))
    else
      var len := ReadU16(data[current..current + 2], big);
      if len < NLA_HDRLEN || |data| - current < len then Stop(Bad(OutOfBounds))
      else
        var h := Handle(c, ReadU16(data[current + 2..current + 4], big), data[current + 4..current + len], big);
        if h.Bad? then Stop(h) else Go(h.config, current + NLA_HDRLEN + Align(len - NLA_HDRLEN))
  }

  lemma ParseAt(data: seq<byte>, current: nat, c: NlConfig, big: bool)
    requires current < |data|
    ensures Parse(data[current..], c, big) ==
      match StepAt(data, current, c, big)
      case Stop(p) => p
      case Go(c', next) => if next >= |data| then Good(c', next - |data|) else Parse(data[next..], c', big)
  {
    hide Handle, ReadU16, Align;
    var before := data[current..];
    if |before| >= NLA_HDRLEN {
      assert before[..2] == data[current..current + 2] && before[2..4] == data[current + 2..current + 4];
      var len := ReadU16(before[..2], big);
      if NLA_HDRLEN <= len <= |before| {
        assert before[4..len] == data[current + 4..current + len];
        var next := NLA_HDRLEN + Align(len - NLA_HDRLEN);
        assert next < |before| ==> before[next..] == data[current + next..];
      }
    }
  }

  /** The loop over the payload that moves along it. */
  method ParseLoop(data: seq<byte>, c: NlConfig, big: bool) returns (r: Parsed)
    ensures r == Parse(data, c, big)
  {
    var current := 0;
    var config := c;
    assert data[0..] == data;
    ghost var all := Parse(data, c, big);
    assert data == [] ==> all == Good(config, 0);
    hide Parse, StepAt;
    while current < |data|
      invariant current < |data| ==> all == Parse(data[current..], config, big)
      invariant current >= |data| ==> all == Good(config, current - |data|)
      decreases |data| - current
    {
      ParseAt(data, current, config, big);
      match StepAt(data, current, config, big) {
        case Stop(p) => return p;
        case Go(c', next) => config, current := c', next;
      }
    }
    r := Good(config, current - |data|);
  }

  method NlParse(stream: seq<byte>, big: bool) returns (r: Parsed)
    ensures r == ParseMessage(stream, big)
  {
    if |stream| < NLMSG_HDRLEN {
      return Bad(ShortRead);
    }
    if ReadU16(stream[4..6], big) != INIT_MSG {
      return Bad(UnexpectedType);
    }
    var length := ReadU32(stream[..4], big);
    if length < NLMSG_HDRLEN || |stream| < length {
      return Bad(ShortRead);
    }
    r := ParseLoop(stream[NLMSG_HDRLEN..length], NOTHING, big);
  }

  // ----- what is parsed is what was written -----

  /** Attributes as the C side knows them. */
  predicate Known(a: Attr) {
    match a
    case Int32msg(t, _) => t == CLONE_FLAGS_ATTR
    case Boolmsg(t, _) => t == ROOTLESS_EUID_ATTR || t == SETGROUP_ATTR
    case Bytemsg(t, _) =>
      || t == NS_PATHS_ATTR || t == UIDMAP_ATTR || t == GIDMAP_ATTR || t == OOM_SCORE_ADJ_ATTR
      || t == UIDMAPPATH_ATTR || t == GIDMAPPATH_ATTR || t == TIMENSOFFSET_ATTR
  }

  predicate AllKnown(attrs: seq<Attr>) { forall i :: 0 <= i < |attrs| ==> Known(attrs[i]) }

  /** A boolean as the C side sees it: the first byte of a 32-bit number. */
  function SeenFlag(f: bool, big: bool): byte { if f && !big then 1 else 0 }

  /** What an attribute means. */
  function Store(c: NlConfig, a: Attr, big: bool): NlConfig {
    match a
    case Int32msg(_, v) => c.(cloneflags := v)
    case Boolmsg(t, f) =>
      if t == SETGROUP_ATTR then c.(isSetgroup := SeenFlag(f, big)) else c.(isRootlessEuid := SeenFlag(f, big))
    case Bytemsg(t, v) =>
      var s := Some(v + [0]);
      if t == NS_PATHS_ATTR then c.(namespaces := s)
      else if t == UIDMAP_ATTR then c.(uidmap := s)
      else if t == GIDMAP_ATTR then c.(gidmap := s)
      else if t == OOM_SCORE_ADJ_ATTR then c.(oomScoreAdj := s)
      else if t == UIDMAPPATH_ATTR then c.(uidmappath := s)
      else if t == GIDMAPPATH_ATTR then c.(gidmappath := s)
      else c.(timensoffset := s)
  }

  lemma HandleStores(a: Attr, c: NlConfig, payload: seq<byte>, big: bool)
    requires Sendable(a) && Known(a) && payload == Body(a, big)[..a.Len() - NLA_HDRLEN]
    ensures Handle(c, a.typ, payload, big) == Good(Store(c, a, big), 0)
  {
    match a
    case Int32msg(_, v) => assert payload == U32(v, big);
    case Boolmsg(_, f) => assert payload == U32(if f then 1 else 0, big);
    case Bytemsg(_, v) => assert payload == v + [0];
  }

  lemma WireParts(a: Attr, rest: seq<byte>, big: bool)
    requires Sendable(a)
    ensures var data := Wire(a, big) + rest; var len := a.Len();
      && NLA_HDRLEN < len <= Align(len) && |data| == Align(len) + |rest|
      && ReadU16(data[..2], big) == len && ReadU16(data[2..4], big) == a.typ
      && data[4..len] == Body(a, big)[..len - NLA_HDRLEN] && data[Align(len)..] == rest
  {
    hide Align, Body, U16, ReadU16;
    var data := Wire(a, big) + rest;
    var len := a.Len();
    AlignHeader(len - NLA_HDRLEN);
    assert data[..2] == U16(len, big);
    assert data[2..4] == U16(a.typ, big);
    assert data[4..len] == Body(a, big)[..len - NLA_HDRLEN];
    assert data[Align(len)..] == rest;
  }

  lemma ParseWire(a: Attr, rest: seq<byte>, c: NlConfig, big: bool)
    requires Sendable(a) && Known(a)
    ensures Parse(Wire(a, big) + rest, c, big) == Parse(rest, Store(c, a, big), big)
  {
    hide Store, Handle, Align, Body, U16, ReadU16, Wire;
    var data := Wire(a, big) + rest;
    var len := a.Len();
    AlignHeader(len - NLA_HDRLEN);
    WireParts(a, rest, big);
    HandleStores(a, c, data[4..len], big);
  }

  function StoreFrom(c: NlConfig, attrs: seq<Attr>, i: nat, big: bool): NlConfig
    requires i <= |attrs|
    decreases |attrs| - i
  {
    if i == |attrs| then c else StoreFrom(Store(c, attrs[i], big), attrs, i + 1, big)
  }

  lemma {:induction false} ParsePayload(attrs: seq<Attr>, i: nat, c: NlConfig, big: bool)
    requires AllSendable(attrs) && AllKnown(attrs) && i <= |attrs|
    ensures Parse(PayloadFrom(attrs, i, big), c, big) == Good(StoreFrom(c, attrs, i, big), 0)
    decreases |attrs| - i
  {
    if i < |attrs| {
      ParseWire(attrs[i], PayloadFrom(attrs, i + 1, big), c, big);
      ParsePayload(attrs, i + 1, Store(c, attrs[i], big), big);
    }
  }

  lemma MessageParts(attrs: seq<Attr>, sequence: nat, big: bool)
    requires AllSendable(attrs) && |attrs| < 65535 && sequence <= UINT32_MAX
    ensures var payload := Payload(attrs, big); var stream := Message(attrs, sequence, big);
      && |stream| == NLMSG_HDRLEN + |payload|
      && ReadU32(stream[..4], big) == |stream| && ReadU16(stream[4..6], big) == INIT_MSG
      && stream[NLMSG_HDRLEN..|stream|] == payload
  {
    hide Payload, PayloadFrom, AllSendable, U16, U32, ReadU16, ReadU32;
    PayloadFits(attrs, big);
    var payload := Payload(attrs, big);
    var length := NLMSG_HDRLEN + |payload|;
    var stream := Message(attrs, sequence, big);
    assert stream[..4] == U32(length, big);
    assert stream[4..6] == U16(INIT_MSG, big);
    assert stream[NLMSG_HDRLEN..length] == payload;
  }

  /** The whole message parses, ends exactly at the end of its payload, and gives back every attribute. */
  lemma MessageRoundTrip(attrs: seq<Attr>, sequence: nat, big: bool)
    requires AllSendable(attrs) && |attrs| < 65535 && sequence <= UINT32_MAX
    requires AllKnown(attrs)
    ensures ParseMessage(Message(attrs, sequence, big), big) == Good(StoreFrom(NOTHING, attrs, 0, big), 0)
  {
    hide Message, Parse, StoreFrom, AllSendable, AllKnown, ReadU16, ReadU32;
    MessageParts(attrs, sequence, big);
    ParsePayload(attrs, 0, NOTHING, big);
  }

  // ----- the format in bytes -----

  /** The value of bytes with the least significant one first. */
  function Little(b: seq<byte>): nat { if b == [] then 0 else (b[0] as int) + 256 * Little(b[1..]) }

  lemma LittleIs(b: seq<byte>)
    ensures |b| == 2 ==> ReadU16(b, false) == Little(b)
    ensures |b| == 4 ==> ReadU32(b, false) == Little(b)
  {
    if |b| == 2 {
      assert b[1..][1..] == [];
    }
    if |b| == 4 {
      assert b[1..][1..] == b[2..] && b[2..][1..] == b[3..] && b[3..][1..] == [];
      assert Little(b[2..]) == b[2] + 256 * Little(b[3..]) && Little(b[3..]) == b[3];
    }
  }

  lemma U16IsLittle(n: nat)
    requires n <= UINT16_MAX
    ensures Little(U16(n, false)) == n
  {
    LittleIs(U16(n, false));
    hide U16, ReadU16;
  }

  lemma U32IsLittle(n: nat)
    requires n <= UINT32_MAX
    ensures Little(U32(n, false)) == n
  {
    LittleIs(U32(n, false));
    hide U32, ReadU32;
  }

  /** The bytes of an attribute on a little-endian host: length, type, value, and zeros up to a multiple of 4. */
  lemma WireLayout(a: Attr)
    requires Sendable(a)
    ensures var w := Wire(a, false);
      var len := if a.Bytemsg? then 5 + |a.bytes| else 8;
      && |w| % 4 == 0 && len <= |w| < len + 4
      && Little(w[0..2]) == len && Little(w[2..4]) == a.typ
      && (a.Int32msg? ==> Little(w[4..8]) == a.value)
      && (a.Boolmsg? ==> Little(w[4..8]) == if a.flag then 1 else 0)
      && (a.Bytemsg? ==> w[4..4 + |a.bytes|] == a.bytes && forall k :: 4 + |a.bytes| <= k < |w| ==> w[k] == 0)
  {
    hide Little, U16, U32, Body, ReadU16, Wire;
    var w := Wire(a, false);
    WireParts(a, [], false);
    assert w + [] == w && w[..2] == w[0..2];
    LittleIs(w[0..2]);
    LittleIs(w[2..4]);
    if a.Bytemsg? {
      BytesLayout(a);
    } else {
      WordLayout(a);
      assert Body(a, false)[..4] == Body(a, false);
    }
  }

  lemma WordLayout(a: Attr)
    requires Sendable(a) && !a.Bytemsg?
    ensures |Body(a, false)| == 4
    ensures Little(Body(a, false)) == if a.Int32msg? then a.value else if a.flag then 1 else 0
  {
    hide Little, U32;
    U32IsLittle(if a.Int32msg? then a.value else if a.flag then 1 else 0);
  }

  lemma BytesLayout(a: Attr)
    requires Sendable(a) && a.Bytemsg?
    ensures var w := Wire(a, false);
      4 + |a.bytes| <= |w| && w[4..4 + |a.bytes|] == a.bytes && forall k :: 4 + |a.bytes| <= k < |w| ==> w[k] == 0
  {
    hide Align, U16;
    var w, body := Wire(a, false), Body(a, false);
    assert forall k :: 0 <= k < |body| ==> w[4 + k] == body[k];
    assert w[4..4 + |a.bytes|] == a.bytes;
    forall k | 4 + |a.bytes| <= k < |w| ensures w[k] == 0 { assert w[4 + (k - 4)] == body[k - 4]; }
  }

  /** On a big-endian host the bytes of each number are the other way round. */
  lemma BigIsReversed(n: nat)
    ensures n <= UINT16_MAX ==> U16(n, true) == [U16(n, false)[1], U16(n, false)[0]]
    ensures n <= UINT32_MAX ==>
      U32(n, true) == [U32(n, false)[3], U32(n, false)[2], U32(n, false)[1], U32(n, false)[0]]
  {
  }

  /** The header on a little-endian host: the whole length, type 62000, flag 1, the sequence number, and 0. */
  lemma MessageLayout(attrs: seq<Attr>, sequence: nat)
    requires AllSendable(attrs) && |attrs| < 65535 && sequence <= UINT32_MAX
    ensures var m := Message(attrs, sequence, false);
      && |m| == 16 + |Payload(attrs, false)| && m[16..] == Payload(attrs, false)
      && Little(m[0..4]) == |m| && Little(m[4..6]) == 62000 && Little(m[6..8]) == 1
      && Little(m[8..12]) == sequence && Little(m[12..16]) == 0
  {
    hide Payload, AllSendable, Little, U16, U32;
    PayloadFits(attrs, false);
    var length := NLMSG_HDRLEN + |Payload(attrs, false)|;
    var m := Message(attrs, sequence, false);
    assert m[0..4] == U32(length, false) && m[4..6] == U16(INIT_MSG, false);
    assert m[6..8] == U16(NLM_F_REQUEST, false) && m[8..12] == U32(sequence, false) && m[12..16] == U32(0, false);
    U32IsLittle(length);
    U16IsLittle(INIT_MSG);
    U16IsLittle(NLM_F_REQUEST);
    U32IsLittle(sequence);
    U32IsLittle(0);
  }

  /** An attribute of any other type makes the C side give up. */
  lemma OthersRefused(a: Attr, rest: seq<byte>, c: NlConfig, big: bool)
    requires Sendable(a) && !(27281 <= a.typ <= 27290)
    ensures Parse(Wire(a, big) + rest, c, big) == Bad(UnknownAttr)
  {
    hide Align, Body, U16, ReadU16, Wire;
    AlignHeader(a.Len() - NLA_HDRLEN);
    WireParts(a, rest, big);
  }

  /** What the C side makes of the header: too little to read, another type, or a length that is not there. */
  lemma HeaderIsChecked(stream: seq<byte>)
    ensures var r := ParseMessage(stream, false);
      if |stream| < 16 then r == Bad(ShortRead)
      else if Little(stream[4..6]) != 62000 then r == Bad(UnexpectedType)
      else
        var length := Little(stream[0..4]);
        if length < 16 || length > |stream| then r == Bad(ShortRead)
        else r == Parse(stream[16..length], NOTHING, false)
  {
    hide Parse, Little, ReadU16, ReadU32;
    if |stream| >= 16 {
      LittleIs(stream[4..6]);
      LittleIs(stream[0..4]);
      assert stream[0..4] == stream[..4];
    }
  }
}
