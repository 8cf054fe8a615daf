/** memcached-1.4.5/memcached.c: a connection's list of pending output. The scatter entries of all messages
    lie one behind the other in one growing array; a message is a pointer into it and a count. */
module OutputQueue {
  type Byte = x: int | 0 <= x < 256

  const UDP_MAX_PAYLOAD_SIZE: nat := 1400
  const UDP_HEADER_SIZE: nat := 8
  const IOV_MAX: nat := 1024
  const IOV_LIST_INITIAL: nat := 400
  const MSG_LIST_INITIAL: nat := 10

  /** An iovec: bytes to send, or room for a datagram header. */
  datatype Iov = Slot | Data(bytes: seq<Byte>)

  /** A msghdr: msg_iov as an address counted in iovecs, and msg_iovlen. */
  datatype Msg = Msg(iov: nat, iovlen: nat)

  function IovLen(v: Iov): nat { if v.Slot? then UDP_HEADER_SIZE else |v.bytes| }

  /** Bytes a list of entries takes on the wire. */
  function Size(s: seq<Iov>): nat { if s == [] then 0 else Size(s[..|s| - 1]) + IovLen(s[|s| - 1]) }

  /** What the list carries besides headers. */
  function Payload(s: seq<Iov>): seq<Byte>
  {
    if s == [] then [] else Payload(s[..|s| - 1]) + EntryPayload(s[|s| - 1])
  }

  function EntryPayload(v: Iov): seq<Byte> { if v.Slot? then [] else v.bytes }

  lemma SizeSnoc(s: seq<Iov>, v: Iov)
    ensures Size(s + [v]) == Size(s) + IovLen(v)
    ensures Payload(s + [v]) == Payload(s) + EntryPayload(v)
  {
    assert (s + [v])[..|s|] == s;
  }

  lemma {:induction false} PayloadConcat(s: seq<Iov>, t: seq<Iov>)
    ensures Payload(s + t) == Payload(s) + Payload(t)
  {
    hide EntryPayload;
    if t == [] {
      assert s + t == s;
    } else {
      var t', x := t[..|t| - 1], t[|t| - 1];
      PayloadConcat(s, t');
      assert s + t == (s + t') + [x];
      SizeSnoc(s + t', x);
      Regroup(Payload(s), Payload(t'), EntryPayload(x));
    }
  }

  // ---------------------------------------------------------------- messages

  /** The entries of all messages, one behind the other. */
  ghost function Flat(parts: seq<seq<Iov>>): seq<Iov>
  {
    if parts == [] then [] else Flat(parts[..|parts| - 1]) + parts[|parts| - 1]
  }

  /** A datagram starts with its header slot and fits the limit; a stream message has no header, and
      the first one is kept as small. */
  ghost predicate MsgOk(s: seq<Iov>, udp: bool, first: bool)
  {
    && |s| <= IOV_MAX
    && (udp ==> s != [] && s[0].Slot? && forall i :: 0 < i < |s| ==> s[i].Data?)
    && (!udp ==> forall i :: 0 <= i < |s| ==> s[i].Data?)
    && (udp || first ==> Size(s) <= UDP_MAX_PAYLOAD_SIZE)
  }

  ghost predicate AllOk(parts: seq<seq<Iov>>, udp: bool)
  {
    forall i {:trigger parts[i]} :: 0 <= i < |parts| ==> MsgOk(parts[i], udp, i == 0)
  }

  /** Header `i` points at the entries `parts[i]` of an array at address `base`. */
  ghost predicate PointsAt(m: Msg, parts: seq<seq<Iov>>, base: nat, i: nat)
    requires i < |parts|
  {
    m.iovlen == |parts[i]| && m.iov == base + |Flat(parts[..i])|
  }

  /** The entries `v` are exactly those of the messages, in order. */
  ghost predicate Laid(v: seq<Iov>, ms: seq<Msg>, parts: seq<seq<Iov>>, base: nat)
  {
    && v == Flat(parts) && |ms| == |parts|
    && forall i {:trigger PointsAt(ms[i], parts, base, i)} :: 0 <= i < |ms| ==> PointsAt(ms[i], parts, base, i)
  }

  /** The last message with one more entry. */
  ghost function Longer(parts: seq<seq<Iov>>, x: Iov): seq<seq<Iov>>
    requires parts != []
  {
    parts[|parts| - 1 := parts[|parts| - 1] + [x]]
  }

  lemma PushLaid(v: seq<Iov>, ms: seq<Msg>, parts: seq<seq<Iov>>, base: nat, x: Iov)
    requires Laid(v, ms, parts, base) && ms != []
    ensures var l := |ms| - 1;
      && ms[l].iov + ms[l].iovlen == base + |v|
      && Laid(v + [x], ms[l := ms[l].(iovlen := ms[l].iovlen + 1)], Longer(parts, x), base)
  {
    var l, parts' := |ms| - 1, Longer(parts, x);
    var ms' := ms[l := ms[l].(iovlen := ms[l].iovlen + 1)];
    assert PointsAt(ms[l], parts, base, l);
    assert parts'[..l] == parts[..l];
    forall i | 0 <= i < |ms'| ensures PointsAt(ms'[i], parts', base, i) {
      assert PointsAt(ms[i], parts, base, i);
      assert parts'[..i] == parts[..i];
    }
  }

  /** A new, empty message at the end. */
  lemma OpenLaid(v: seq<Iov>, ms: seq<Msg>, parts: seq<seq<Iov>>, base: nat)
    requires Laid(v, ms, parts, base)
    ensures Laid(v, ms + [Msg(base + |v|, 0)], parts + [[]], base)
  {
    var ms', parts' := ms + [Msg(base + |v|, 0)], parts + [[]];
    assert parts'[..|parts|] == parts;
    forall i | 0 <= i < |ms'| ensures PointsAt(ms'[i], parts', base, i) {
      if i < |ms| {
        assert PointsAt(ms[i], parts, base, i);
        assert parts'[..i] == parts[..i];
      }
    }
  }

  lemma PushOk(parts: seq<seq<Iov>>, udp: bool, x: Iov)
    requires parts != [] && AllOk(parts[..|parts| - 1], udp) && MsgOk(parts[|parts| - 1] + [x], udp, |parts| == 1)
    ensures AllOk(Longer(parts, x), udp)
  {
    var parts' := Longer(parts, x);
    forall i | 0 <= i < |parts'| ensures MsgOk(parts'[i], udp, i == 0) {
      if i < |parts| - 1 { assert parts'[i] == parts[..|parts| - 1][i]; }
    }
  }

  /** The payloads of the messages, one after the other. */
  ghost function Delivered(parts: seq<seq<Iov>>): seq<Byte>
  {
    if parts == [] then [] else Delivered(parts[..|parts| - 1]) + Payload(parts[|parts| - 1])
  }

  /** The division into messages loses, repeats and reorders nothing. */
  lemma {:induction false} DeliveredIsPayload(parts: seq<seq<Iov>>)
    ensures Delivered(parts) == Payload(Flat(parts))
  {
    if parts != [] {
      DeliveredIsPayload(parts[..|parts| - 1]);
      PayloadConcat(Flat(parts[..|parts| - 1]), parts[|parts| - 1]);
    }
  }

  // ---------------------------------------------------------------- the connection

  class Conn {
    const udp: bool
    var iovBase: nat               // the address of the array c->iov
    var iov: seq<Iov>              // its iovsize entries
    var iovused: nat
    var msglist: seq<Msg>          // its msgsize entries
    var msgused: nat
    var msgcurr: nat
    var msgbytes: nat              // bytes in the last message
    ghost var parts: seq<seq<Iov>> // the entries of each message

    ghost predicate Valid()
      reads this
    {
      && iov != [] && msglist != [] && iovused <= |iov| && msgused <= |msglist|
      && Laid(iov[..iovused], msglist[..msgused], parts, iovBase)
    }

    /** Between calls: there is a message, all messages are well formed, none of it has been sent. */
    ghost predicate Queued()
      reads this
    {
      Valid() && parts != [] && AllOk(parts, udp) && msgbytes == Size(parts[|parts| - 1]) && msgcurr == 0
    }

    /** Everything added so far. */
    ghost function Stream(): seq<Byte>
      reads this
    {
      Delivered(parts)
    }

    /** ensure_iov_space: on growth the array moves to `newBase`, and every message is pointed at its
        entries there */
    method EnsureIovSpace(newBase: nat)
      requires Valid()
      modifies this`iov, this`iovBase, this`msglist
      ensures Valid() && iovused < |iov| && iov[..iovused] == old(iov[..iovused]) && |msglist| == old(|msglist|)
      ensures forall i :: 0 <= i < msgused ==> msglist[i].iovlen == old(msglist)[i].iovlen
    {
      if iovused >= |iov| {
        ghost var v, ms, base := iov[..iovused], msglist[..msgused], iovBase;
        iov := iov + seq(|iov|, i => Slot);
        iovBase := newBase;
        var i, iovnum := 0, 0;
        while i < msgused
          modifies this`msglist
          invariant i <= msgused <= |msglist| == old(|msglist|) && |parts| == msgused
          invariant iovnum == |Flat(parts[..i])|
          invariant forall j :: 0 <= j < msgused ==> msglist[j].iovlen == ms[j].iovlen
          invariant forall j :: 0 <= j < i ==> PointsAt(msglist[j], parts, newBase, j)
        {
          assert PointsAt(ms[i], parts, base, i);
          assert parts[..i + 1][..i] == parts[..i];
          msglist := msglist[i := msglist[i].(iov := iovBase + iovnum)];
          iovnum := iovnum + msglist[i].iovlen;
          i := i + 1;
        }
        assert iov[..iovused] == v;
      }
    }

    /** Writes one entry behind the last message's entries. */
    method Push(x: Iov)
      requires Valid() && parts != [] && iovused < |iov|
      modifies this`iov, this`iovused, this`msglist, this`msgbytes, this`parts
      ensures Valid() && parts == Longer(old(parts), x) && msgbytes == old(msgbytes) + IovLen(x)
    {
      hide Flat, Laid;
      ghost var v, ms := iov[..iovused], msglist[..msgused];
      LaidShape(v, ms, parts, iovBase);
      PushLaid(v, ms, parts, iovBase, x);
      var l := msgused - 1;
      var m := msglist[l];
      assert m == ms[l];
      iov := iov[m.iov + m.iovlen - iovBase := x];
      msgbytes := msgbytes + IovLen(x);
      iovused := iovused + 1;
      msglist := msglist[l := m.(iovlen := m.iovlen + 1)];
      parts := Longer(parts, x);
      assert iov[..iovused] == v + [x];
      assert msglist[..msgused] == ms[l := ms[l].(iovlen := ms[l].iovlen + 1)];
    }

    /** add_msghdr: a new message, with room for its header in a datagram */
    method AddMsghdr(newBase: nat)
      requires Valid() && AllOk(parts, udp)
      modifies this`iov, this`iovBase, this`iovused, this`msglist, this`msgused, this`msgbytes, this`parts
      ensures Valid() && AllOk(parts, udp) && parts == old(parts) + [if udp then [Slot] else []]
      ensures msgbytes == if udp then UDP_HEADER_SIZE else 0
    {
      hide Flat, Laid, AllOk;
      ghost var v, ms, parts0 := iov[..iovused], msglist[..msgused], parts;
      if |msglist| == msgused {
        msglist := msglist + seq(|msglist|, i => Msg(0, 0));
      }
      OpenLaid(v, ms, parts, iovBase);
      msglist := msglist[msgused := Msg(iovBase + iovused, 0)];
      msgbytes := 0;
      msgused := msgused + 1;
      assert msglist[..msgused] == ms + [Msg(iovBase + |v|, 0)];
      parts := parts + [[]];
      OpenOk(parts0, udp);
      if udp {
        EnsureIovSpace(newBase);
        Push(Slot);
        SlotAlone();
        assert parts == parts0 + [[Slot]];
      }
    }

    /** conn_new, and the reset before a command's output */
    constructor (udp: bool, iovBase: nat, newBase: nat)
      ensures Queued() && Stream() == [] && this.udp == udp
    {
      this.udp, this.iovBase := udp, iovBase;
      iov := seq(IOV_LIST_INITIAL, i => Slot);
      msglist := seq(MSG_LIST_INITIAL, i => Msg(0, 0));
      iovused, msgused, msgcurr, msgbytes, parts := 0, 0, 0, 0, [];
      new;
      AddMsghdr(newBase);
      assert parts == [if udp then [Slot] else []];
      FirstIs(udp);
    }

    /** add_iov: whatever is added becomes the end of the stream, cut to the datagram limit */
    method AddIov(buf: seq<Byte>)
      requires Queued()
      modifies this`iov, this`iovBase, this`iovused, this`msglist, this`msgused, this`msgbytes, this`parts
      ensures Queued() && Stream() == old(Stream()) + buf
    {
      hide Flat, Laid, AllOk, MsgOk, Delivered;
      var rest, leftover := buf, true;
      assert buf[..0] == [];
      while leftover
        invariant Queued() && |rest| <= |buf| && rest == buf[|buf| - |rest|..]
        invariant Stream() == old(Stream()) + buf[..|buf| - |rest|]
        invariant !leftover ==> rest == []
        decreases |rest| + if leftover then 1 else 0
      {
        ghost var done := |buf| - |rest|;
        var len := AddFragment(rest);
        assert buf[..done] + rest[..len] == buf[..done + len];
        assert (old(Stream()) + buf[..done]) + rest[..len] == old(Stream()) + (buf[..done] + rest[..len]);
        rest := rest[len..];
        leftover := rest != [];
      }
      assert buf[..|buf|] == buf;
    }

    /** One round of add_iov's loop */
    method AddFragment(buf: seq<Byte>) returns (len: nat)
      requires Queued()
      modifies this`iov, this`iovBase, this`iovused, this`msglist, this`msgused, this`msgbytes, this`parts
      ensures Queued() && len <= |buf| && (buf != [] ==> len > 0) && Stream() == old(Stream()) + buf[..len]
    {
      hide Flat, Laid, AllOk, MsgOk, Delivered, Size;
      var limitToMtu := MakeRoom();
      var newBase: nat := *;
      EnsureIovSpace(newBase);
      len := if limitToMtu && |buf| + msgbytes > UDP_MAX_PAYLOAD_SIZE then UDP_MAX_PAYLOAD_SIZE - msgbytes else |buf|;
      ghost var x, parts0 := Data(buf[..len]), parts;
      PushMsgOk(parts0, udp, x);
      Push(Data(buf[..len]));
      PushDelivers(parts0, x);
    }

    /** build_udp_headers: every message's slot becomes its header, and the rest stays */
    method BuildUdpHeaders(requestId: nat)
      requires Queued() && udp
      modifies this`iov, this`parts
      ensures Valid() && parts == WithHeaders(old(parts), requestId, |old(parts)|, |old(parts)|)
      ensures |parts| == |old(parts)|
      ensures forall i {:trigger parts[i]} :: 0 <= i < |parts| ==>
        && parts[i] != [] && parts[i][0].Data? && parts[i][1..] == old(parts)[i][1..]
        && Announces(parts[i][0].bytes, requestId % 65536, i % 65536, |parts| % 65536)
    {
      hide Laid, AllOk, Flat, UdpHeader, Announces;
      LaidShape(iov[..iovused], msglist[..msgused], parts, iovBase);
      ghost var parts0 := parts;
      var i := 0;
      while i < msgused
        modifies this`iov, this`parts
        invariant i <= msgused == |parts0| && iovused <= |iov| && iov != []
        invariant Laid(iov[..iovused], msglist[..msgused], parts, iovBase)
        invariant parts == WithHeaders(parts0, requestId, i, |parts0|)
      {
        ghost var v, x := iov[..iovused], Data(UdpHeader(requestId, i, msgused));
        SlotsLeft(parts0, udp, i);
        SetHead(v, msglist[..msgused], parts, iovBase, i, x);
        iov := iov[msglist[i].iov - iovBase := Data(UdpHeader(requestId, i, msgused))];
        assert iov[..iovused] == v[msglist[i].iov - iovBase := x];
        parts := parts[i := [x] + parts[i][1..]];
        assert parts == WithHeaders(parts0, requestId, i + 1, |parts0|);
        i := i + 1;
      }
      HeadersAnnounce(parts0, requestId);
    }

    /** The message transmit works on next. */
    function NextMsg(): nat
      reads this
    {
      if msgcurr < msgused && msgcurr < |msglist| && msglist[msgcurr].iovlen == 0 then msgcurr + 1 else msgcurr
    }

    /** Any number of calls of transmit; sendmsg takes up to `accept[i]` bytes of the message it is given. No more is
        sent than it takes, and nothing is left once it has taken something as often as there are bytes and messages, or
        has taken as many whole messages as there are. */
    method Drive(accept: seq<nat>, ghost ends: seq<nat>) returns (ghost sent: seq<Byte>)
      requires msgused <= |msglist| && SendOk(iov, msglist[..msgused], parts, iovBase, ends, msgcurr)
      modifies this`iov, this`msglist, this`msgcurr, this`parts
      ensures |msglist| == old(|msglist|) && SendOk(iov, msglist[..msgused], parts, iovBase, ends, msgcurr)
      ensures msgcurr <= |parts| && sent + Remaining(parts, msgcurr) == Remaining(old(parts), old(msgcurr))
      ensures |sent| <= Sum(accept)
      ensures Takes(accept) >= |Remaining(old(parts), old(msgcurr))| + Undone(old(parts), old(msgcurr)) ==>
        Remaining(parts, msgcurr) == []
      ensures |accept| >= Undone(old(parts), old(msgcurr)) ==>
        AllAtLeast(accept, |Remaining(old(parts), old(msgcurr))|) ==> Remaining(parts, msgcurr) == []
    {
      hide SendOk, Wire, Remaining, Undone;
      sent := [];
      SendShape(iov, msglist[..msgused], parts, iovBase, ends, msgcurr);
      ghost var bytes, undone := |Remaining(parts, msgcurr)|, Undone(parts, msgcurr);
      assert accept[..0] == [];
      for i := 0 to |accept|
        invariant |msglist| == old(|msglist|) && SendOk(iov, msglist[..msgused], parts, iovBase, ends, msgcurr)
        invariant |parts| == msgused && msgcurr <= msgused
        invariant sent + Remaining(parts, msgcurr) == Remaining(old(parts), old(msgcurr))
        invariant |sent| <= Sum(accept[..i])
        invariant Undone(parts, msgcurr) > 0 ==>
          |Remaining(parts, msgcurr)| + Undone(parts, msgcurr) + Takes(accept[..i]) <= bytes + undone
        invariant Undone(parts, msgcurr) > 0 && AllAtLeast(accept, bytes) ==> Undone(parts, msgcurr) + i <= undone
      {
        ghost var now := Once(accept[i], ends);
        Regroup(sent, now, Remaining(parts, msgcurr));
        sent := sent + now;
        assert accept[..i + 1][..i] == accept[..i];
      }
      assert accept[..|accept|] == accept;
      AllDone(parts, msgcurr);
    }

    /** A call of transmit; sendmsg takes up to `limit` bytes of the message it is given */
    method Once(limit: nat, ghost ends: seq<nat>) returns (ghost sent: seq<Byte>)
      requires msgused <= |msglist| && SendOk(iov, msglist[..msgused], parts, iovBase, ends, msgcurr)
      requires |parts| == msgused && msgcurr <= msgused
      modifies this`iov, this`msglist, this`msgcurr, this`parts
      ensures |msglist| == old(|msglist|) && SendOk(iov, msglist[..msgused], parts, iovBase, ends, msgcurr)
      ensures |parts| == msgused && msgcurr <= msgused && |sent| <= limit
      ensures Remaining(old(parts), old(msgcurr)) == sent + Remaining(parts, msgcurr)
      ensures Undone(parts, msgcurr) <= Undone(old(parts), old(msgcurr))
      ensures limit > 0 && Undone(parts, msgcurr) > 0 ==>
        sent != [] || Undone(parts, msgcurr) < Undone(old(parts), old(msgcurr))
      ensures limit >= |Remaining(old(parts), old(msgcurr))| && Undone(parts, msgcurr) > 0 ==>
        Undone(parts, msgcurr) < Undone(old(parts), old(msgcurr))
    {
      hide SendOk, Wire, Remaining, Undone;
      ghost var parts0, cur := parts, msgcurr;
      SendShape(iov, msglist[..msgused], parts, iovBase, ends, msgcurr);
      var n := NextMsg();
      var res := 0;
      if n < msgused {
        NextHolds(iov, msglist[..msgused], parts, iovBase, ends, msgcurr, n);
        var all := WireLen(iov[msglist[n].iov - iovBase..][..msglist[n].iovlen]);
        res := if limit < all then limit else all;
      }
      var more;
      more, sent := Transmit(res, ends);
      SendShape(iov, msglist[..msgused], parts, iovBase, ends, msgcurr);
      Advances(parts0, cur, parts, msgcurr);
      WireWithin(parts0, cur);
    }

    /** transmit, after sendmsg has taken `res` bytes of the current message: they are the front of what
        remained, and what remains is the rest */
    method Transmit(res: nat, ghost ends: seq<nat>) returns (more: bool, ghost sent: seq<Byte>)
      requires msgused <= |msglist| && SendOk(iov, msglist[..msgused], parts, iovBase, ends, msgcurr)
      requires msgcurr < msgused ==> res <= |Wire(parts[msgcurr])| || parts[msgcurr] == []
      requires msgcurr + 1 < msgused && parts[msgcurr] == [] ==> res <= |Wire(parts[msgcurr + 1])|
      modifies this`iov, this`msglist, this`msgcurr, this`parts
      ensures |msglist| == old(|msglist|) && SendOk(iov, msglist[..msgused], parts, iovBase, ends, msgcurr)
      ensures Remaining(old(parts), old(msgcurr)) == sent + Remaining(parts, msgcurr)
      ensures more ==> |sent| == res
      ensures !more ==> sent == [] && Remaining(parts, msgcurr) == []
      ensures |parts| == msgused && old(msgcurr) <= |old(parts)| == |parts|
      ensures msgcurr == Upcoming(old(parts), old(msgcurr)) && more == (msgcurr < msgused)
      ensures more && res == |Wire(old(parts)[msgcurr])| ==> parts[msgcurr] == []
    {
      hide SendOk, Wire;
      more, sent := false, [];
      SendShape(iov, msglist[..msgused], parts, iovBase, ends, msgcurr);
      if msgcurr < msgused && msglist[msgcurr].iovlen == 0 {
        SkipMessage(iov, msglist[..msgused], parts, iovBase, ends, msgcurr);
        msgcurr := msgcurr + 1;
      }
      if msgcurr < msgused {
        more := true;
        SendShape(iov, msglist[..msgused], parts, iovBase, ends, msgcurr);
        sent := Consume(res, ends);
      }
    }

    /** The current message is there, and its first entry is where its header points. */
    ghost predicate Sending(ends: seq<nat>)
      reads this
    {
      && msgcurr < msgused <= |msglist| && |parts| == msgused
      && SendOk(iov, msglist[..msgused], parts, iovBase, ends, msgcurr)
      && msglist[msgcurr].iovlen == |parts[msgcurr]|
      && (parts[msgcurr] != [] ==> At(iov, msglist[msgcurr].iov, iovBase, parts[msgcurr][0]))
    }

    /** The current message's first entry was sent */
    method DropFirst(left: nat, ghost ends: seq<nat>) returns (rest: nat, ghost sent: seq<Byte>)
      requires Sending(ends) && msglist[msgcurr].iovlen > 0
      requires IovLen(iov[msglist[msgcurr].iov - iovBase]) <= left <= |Wire(parts[msgcurr])|
      modifies this`msglist, this`parts
      ensures Sending(ends) && |msglist| == old(|msglist|) && msglist[msgcurr].iovlen < old(msglist[msgcurr].iovlen)
      ensures |sent| + rest == left && rest <= |Wire(parts[msgcurr])|
      ensures left == |Wire(old(parts)[msgcurr])| ==> rest == |Wire(parts[msgcurr])|
      ensures Remaining(old(parts), msgcurr) == sent + Remaining(parts, msgcurr)
    {
      hide SendOk, Wire, EntryPayload, Remaining;
      var n := msgcurr;
      ghost var part, parts0, ms := parts[n], parts, msglist[..msgused];
      DropEntry(iov, ms, parts, iovBase, ends, n);
      WireHead(part);
      rest := left - IovLen(iov[msglist[n].iov - iovBase]);
      sent := EntryPayload(part[0]);
      msglist := msglist[n := Msg(msglist[n].iov + 1, msglist[n].iovlen - 1)];
      assert msglist[..msgused] == ms[n := msglist[n]];
      parts := parts[n := part[1..]];
      RemainingStep(parts0, parts, n, sent);
      SendShape(iov, msglist[..msgused], parts, iovBase, ends, n);
    }

    /** The front of the current message's first entry was sent */
    method TrimFirst(left: nat, ghost ends: seq<nat>) returns (ghost sent: seq<Byte>)
      requires Sending(ends) && msglist[msgcurr].iovlen > 0
      requires left < IovLen(iov[msglist[msgcurr].iov - iovBase])
      modifies this`iov, this`parts
      ensures Sending(ends) && |sent| == left
      ensures Remaining(old(parts), msgcurr) == sent + Remaining(parts, msgcurr)
    {
      hide SendOk, Wire, Remaining;
      var n := msgcurr;
      var x := iov[msglist[n].iov - iovBase];
      ghost var parts0, part := parts, parts[n];
      TrimEntry(iov, msglist[..msgused], parts, iovBase, ends, n, Data(x.bytes[left..]));
      iov := iov[msglist[n].iov - iovBase := Data(x.bytes[left..])];
      parts := parts[n := [Data(x.bytes[left..])] + part[1..]];
      sent := x.bytes[..left];
      WireTrim(part, left);
      RemainingStep(parts0, parts, n, sent);
      SendShape(iov, msglist[..msgused], parts, iovBase, ends, n);
    }

    /** The part of transmit that takes `res` bytes off the current message */
    method Consume(res: nat, ghost ends: seq<nat>) returns (ghost sent: seq<Byte>)
      requires msgused <= |msglist| && SendOk(iov, msglist[..msgused], parts, iovBase, ends, msgcurr)
      requires msgcurr < msgused && |parts| == msgused && res <= |Wire(parts[msgcurr])|
      modifies this`iov, this`msglist, this`parts
      ensures |msglist| == old(|msglist|) && SendOk(iov, msglist[..msgused], parts, iovBase, ends, msgcurr)
      ensures |sent| == res && |parts| == msgused
      ensures res == |Wire(old(parts)[msgcurr])| ==> parts[msgcurr] == []
      ensures Remaining(old(parts), msgcurr) == sent + Remaining(parts, msgcurr)
    {
      hide SendOk, Wire, Remaining;
      var left := res;
      ghost var part;
      sent := [];
      SendShape(iov, msglist[..msgused], parts, iovBase, ends, msgcurr);
      while msglist[msgcurr].iovlen > 0 && left >= IovLen(iov[msglist[msgcurr].iov - iovBase])
        modifies this`msglist, this`parts
        invariant Sending(ends) && |msglist| == old(|msglist|)
        invariant 0 <= left <= |Wire(parts[msgcurr])| && |sent| + left == res
        invariant res == |Wire(old(parts)[msgcurr])| ==> left == |Wire(parts[msgcurr])|
        invariant Remaining(old(parts), msgcurr) == sent + Remaining(parts, msgcurr)
        decreases msglist[msgcurr].iovlen
      {
        left, part := DropFirst(left, ends);
        Regroup(sent, part, Remaining(parts, msgcurr));
        sent := sent + part;
      }
      WireEmpty(parts[msgcurr]);
      if parts[msgcurr] != [] { WireHead(parts[msgcurr]); }
      if left > 0 {
        part := TrimFirst(left, ends);
        Regroup(sent, part, Remaining(parts, msgcurr));
        sent := sent + part;
      }
    }

    /** add_iov starts a new message when the last one is full */
    method MakeRoom() returns (limitToMtu: bool)
      requires Queued()
      modifies this`iov, this`iovBase, this`iovused, this`msglist, this`msgused, this`msgbytes, this`parts
      ensures Queued() && Stream() == old(Stream()) && |parts[|parts| - 1]| < IOV_MAX
      ensures limitToMtu == (udp || old(msgused) == 1) && (limitToMtu ==> msgbytes < UDP_MAX_PAYLOAD_SIZE)
      ensures udp || |parts| == 1 ==> limitToMtu
    {
      hide Flat, Laid, AllOk, MsgOk, Delivered, Size;
      LaidShape(iov[..iovused], msglist[..msgused], parts, iovBase);
      LastOk(parts, udp);
      limitToMtu := udp || msgused == 1;
      if msglist[msgused - 1].iovlen == IOV_MAX || (limitToMtu && msgbytes >= UDP_MAX_PAYLOAD_SIZE) {
        var newBase: nat := *;
        ghost var parts0 := parts;
        AddMsghdr(newBase);
        OpenDelivers(parts0, parts, udp);
      }
    }
  }

  // ---------------------------------------------------------------- sending

  function Sum(s: seq<nat>): nat { if s == [] then 0 else Sum(s[..|s| - 1]) + s[|s| - 1] }

  /** How often something is taken. */
  function Takes(s: seq<nat>): nat
  {
    if s == [] then 0 else Takes(s[..|s| - 1]) + if s[|s| - 1] > 0 then 1 else 0
  }

  predicate AllAtLeast(s: seq<nat>, n: nat) { forall i :: 0 <= i < |s| ==> s[i] >= n }

  /** The message transmit gives to sendmsg. */
  ghost function Upcoming(parts: seq<seq<Iov>>, n: nat): nat { if n < |parts| && parts[n] == [] then n + 1 else n }

  /** How many messages are not done with. */
  ghost function Undone(parts: seq<seq<Iov>>, n: nat): int { |parts| - Upcoming(parts, n) }

  lemma Advances(parts: seq<seq<Iov>>, n: nat, parts': seq<seq<Iov>>, n': nat)
    requires n <= |parts| == |parts'| && n' == Upcoming(parts, n)
    ensures Undone(parts', n') <= Undone(parts, n)
    ensures n' < |parts| && parts'[n'] == [] ==> Undone(parts', n') == Undone(parts, n) - 1
    ensures n' == |parts| ==> Undone(parts', n') == 0
  {
  }

  lemma WireWithin(parts: seq<seq<Iov>>, n: nat)
    requires n <= |parts|
    ensures var next := Upcoming(parts, n);
      next < |parts| ==> |Wire(parts[next])| <= |Remaining(parts, n)|
  {
    hide Wire;
  }

  lemma AllDone(parts: seq<seq<Iov>>, n: nat)
    requires n <= |parts|
    ensures Undone(parts, n) <= 0 ==> Remaining(parts, n) == []
  {
  }

  /** What goes over the wire; by then the headers are filled in. */
  function Wire(s: seq<Iov>): seq<Byte> { if s == [] then [] else EntryPayload(s[0]) + Wire(s[1..]) }

  /** The bytes of the messages from number `n` on. */
  ghost function Remaining(parts: seq<seq<Iov>>, n: nat): seq<Byte>
    requires n <= |parts|
    decreases |parts| - n
  {
    if n == |parts| then [] else Wire(parts[n]) + Remaining(parts, n + 1)
  }

  /** Message `i` has the entries `part`, which end at `end` of the array. */
  ghost predicate Holds(iov: seq<Iov>, m: Msg, part: seq<Iov>, base: nat, end: nat)
  {
    && base <= m.iov && m.iov + m.iovlen == base + end && end <= |iov| && m.iovlen == |part|
    && iov[end - m.iovlen..end] == part && forall j :: 0 <= j < |part| ==> part[j].Data?
  }

  /** The messages not yet sent have their entries in separate stretches of the array. */
  ghost predicate SendOk(iov: seq<Iov>, ms: seq<Msg>, parts: seq<seq<Iov>>, base: nat, ends: seq<nat>, n: nat)
  {
    && |ms| == |parts| == |ends| && n <= |ms|
    && (forall i {:trigger Holds(iov, ms[i], parts[i], base, ends[i])} ::
          n <= i < |ms| ==> Holds(iov, ms[i], parts[i], base, ends[i]))
    && (forall i, j {:trigger Ahead(ms, ends, base, i, j)} :: n <= i < j < |ms| ==> Ahead(ms, ends, base, i, j))
  }

  ghost predicate Ahead(ms: seq<Msg>, ends: seq<nat>, base: nat, i: nat, j: nat)
    requires i < |ends| && j < |ms|
  {
    base + ends[i] <= ms[j].iov
  }

  /** The first entry of message `n` is done with. */
  lemma DropEntry(iov: seq<Iov>, ms: seq<Msg>, parts: seq<seq<Iov>>, base: nat, ends: seq<nat>, n: nat)
    requires SendOk(iov, ms, parts, base, ends, n) && n < |ms| && ms[n].iovlen > 0
    ensures var ms' := ms[n := Msg(ms[n].iov + 1, ms[n].iovlen - 1)];
      parts[n] != [] && SendOk(iov, ms', parts[n := parts[n][1..]], base, ends, n)
  {
    assert Holds(iov, ms[n], parts[n], base, ends[n]);
    var ms', parts' := ms[n := Msg(ms[n].iov + 1, ms[n].iovlen - 1)], parts[n := parts[n][1..]];
    assert iov[ends[n] - ms[n].iovlen] == parts[n][0];
    forall i {:trigger Holds(iov, ms'[i], parts'[i], base, ends[i])} | n <= i < |ms|
      ensures Holds(iov, ms'[i], parts'[i], base, ends[i])
    {
      assert Holds(iov, ms[i], parts[i], base, ends[i]);
    }
    forall i, j {:trigger Ahead(ms', ends, base, i, j)} | n <= i < j < |ms| ensures Ahead(ms', ends, base, i, j) {
      assert Ahead(ms, ends, base, i, j);
    }
  }

  /** The first entry of message `n` is replaced, which no other message notices. */
  lemma TrimEntry(iov: seq<Iov>, ms: seq<Msg>, parts: seq<seq<Iov>>, base: nat, ends: seq<nat>, n: nat, x: Iov)
    requires SendOk(iov, ms, parts, base, ends, n) && n < |ms| && ms[n].iovlen > 0 && x.Data?
    ensures base <= ms[n].iov < base + |iov| && parts[n] != [] && iov[ms[n].iov - base] == parts[n][0]
    ensures SendOk(iov[ms[n].iov - base := x], ms, parts[n := [x] + parts[n][1..]], base, ends, n)
  {
    assert Holds(iov, ms[n], parts[n], base, ends[n]);
    var iov', parts' := iov[ms[n].iov - base := x], parts[n := [x] + parts[n][1..]];
    assert iov[ends[n] - ms[n].iovlen] == parts[n][0];
    forall i {:trigger Holds(iov', ms[i], parts'[i], base, ends[i])} | n <= i < |ms|
      ensures Holds(iov', ms[i], parts'[i], base, ends[i])
    {
      assert Holds(iov, ms[i], parts[i], base, ends[i]);
      if i == n {
        assert iov'[ends[n] - ms[n].iovlen..ends[n]] == [x] + iov[ends[n] - ms[n].iovlen..ends[n]][1..];
      } else {
        assert Ahead(ms, ends, base, n, i);
        assert iov'[ends[i] - ms[i].iovlen..ends[i]] == iov[ends[i] - ms[i].iovlen..ends[i]];
      }
    }
  }

  lemma {:induction false} RemainingFrame(parts: seq<seq<Iov>>, parts': seq<seq<Iov>>, n: nat)
    requires n <= |parts| == |parts'| && forall i :: n <= i < |parts| ==> parts'[i] == parts[i]
    ensures Remaining(parts', n) == Remaining(parts, n)
    decreases |parts| - n
  {
    if n < |parts| { RemainingFrame(parts, parts', n + 1); }
  }

  lemma SlotAlone()
    ensures var none: seq<Iov> := []; none + [Slot] == [Slot]
  {
  }

  lemma LaidShape(v: seq<Iov>, ms: seq<Msg>, parts: seq<seq<Iov>>, base: nat)
    requires Laid(v, ms, parts, base)
    ensures |ms| == |parts| && v == Flat(parts)
    ensures parts != [] ==> ms[|ms| - 1].iovlen == |parts[|parts| - 1]|
  {
    if parts != [] { assert PointsAt(ms[|ms| - 1], parts, base, |ms| - 1); }
  }

  lemma OpenOk(parts: seq<seq<Iov>>, udp: bool)
    requires AllOk(parts, udp)
    ensures AllOk(parts + [if udp then [Slot] else []], udp)
  {
    var p: seq<Iov> := if udp then [Slot] else [];
    assert Size([Slot]) == 8 by { assert [Slot][..0] == []; }
    assert MsgOk(p, udp, |parts| == 0);
    forall i | 0 <= i < |parts| + 1 ensures MsgOk((parts + [p])[i], udp, i == 0) {
      if i < |parts| { assert (parts + [p])[i] == parts[i]; }
    }
  }

  lemma FirstIs(udp: bool)
    ensures var p: seq<Iov> := if udp then [Slot] else [];
      Size(p) == (if udp then UDP_HEADER_SIZE else 0) && Delivered([p]) == []
  {
    assert [Slot][..0] == [];
    var p: seq<Iov> := if udp then [Slot] else [];
    assert [p][..0] == [];
  }

  lemma LastOk(parts: seq<seq<Iov>>, udp: bool)
    requires parts != [] && AllOk(parts, udp)
    ensures MsgOk(parts[|parts| - 1], udp, |parts| == 1)
    ensures (udp || |parts| == 1 ==> Size(parts[|parts| - 1]) <= UDP_MAX_PAYLOAD_SIZE)
    ensures |parts[|parts| - 1]| <= IOV_MAX
  {
  }

  lemma OpenDelivers(parts: seq<seq<Iov>>, parts': seq<seq<Iov>>, udp: bool)
    requires parts' == parts + [if udp then [Slot] else []]
    ensures Delivered(parts') == Delivered(parts) && Size(parts'[|parts|]) == if udp then UDP_HEADER_SIZE else 0
  {
    assert parts'[..|parts|] == parts;
    assert [Slot][..0] == [];
  }

  lemma PushDelivers(parts: seq<seq<Iov>>, x: Iov)
    requires parts != []
    ensures Size(Longer(parts, x)[|parts| - 1]) == Size(parts[|parts| - 1]) + IovLen(x)
    ensures Delivered(Longer(parts, x)) == Delivered(parts) + EntryPayload(x)
  {
    hide Payload, Size, EntryPayload;
    var l := |parts| - 1;
    var parts' := Longer(parts, x);
    assert parts'[..l] == parts[..l] && parts'[l] == parts[l] + [x];
    SizeSnoc(parts[l], x);
    calc {
      Delivered(parts');
      Delivered(parts[..l]) + Payload(parts[l] + [x]);
      Delivered(parts[..l]) + (Payload(parts[l]) + EntryPayload(x));
      { Regroup(Delivered(parts[..l]), Payload(parts[l]), EntryPayload(x)); }
      Delivered(parts[..l]) + Payload(parts[l]) + EntryPayload(x);
    }
  }

  lemma Regroup(a: seq<Byte>, b: seq<Byte>, c: seq<Byte>)
    ensures a + (b + c) == a + b + c
  {
  }

  lemma PushMsgOk(parts: seq<seq<Iov>>, udp: bool, x: Iov)
    requires parts != [] && AllOk(parts, udp) && x.Data? && |parts[|parts| - 1]| < IOV_MAX
    requires udp || |parts| == 1 ==> Size(parts[|parts| - 1]) + |x.bytes| <= UDP_MAX_PAYLOAD_SIZE
    ensures AllOk(Longer(parts, x), udp)
  {
    var l := |parts| - 1;
    SizeSnoc(parts[l], x);
    assert MsgOk(parts[l], udp, l == 0);
    PushOk(parts, udp, x);
  }

  /** The array at `base` has the data entry `x` at address `p`. */
  ghost predicate At(iov: seq<Iov>, p: nat, base: nat, x: Iov)
  {
    base <= p < base + |iov| && iov[p - base] == x && x.Data?
  }

  lemma SendShape(iov: seq<Iov>, ms: seq<Msg>, parts: seq<seq<Iov>>, base: nat, ends: seq<nat>, n: nat)
    requires SendOk(iov, ms, parts, base, ends, n)
    ensures |ms| == |parts| && n <= |ms|
    ensures n < |ms| ==> ms[n].iovlen == |parts[n]|
    ensures n < |ms| && parts[n] != [] ==> At(iov, ms[n].iov, base, parts[n][0])
  {
    if n < |ms| { assert Holds(iov, ms[n], parts[n], base, ends[n]); }
  }

  lemma SkipMessage(iov: seq<Iov>, ms: seq<Msg>, parts: seq<seq<Iov>>, base: nat, ends: seq<nat>, n: nat)
    requires SendOk(iov, ms, parts, base, ends, n) && n < |ms| && parts[n] == []
    ensures SendOk(iov, ms, parts, base, ends, n + 1) && Remaining(parts, n) == Remaining(parts, n + 1)
  {
    forall i {:trigger Holds(iov, ms[i], parts[i], base, ends[i])} | n < i < |ms|
      ensures Holds(iov, ms[i], parts[i], base, ends[i])
    {
    }
    forall i, j {:trigger Ahead(ms, ends, base, i, j)} | n < i < j < |ms| ensures Ahead(ms, ends, base, i, j) {}
  }

  lemma WireEmpty(s: seq<Iov>)
    ensures s == [] ==> Wire(s) == []
  {
  }

  lemma WireTrim(s: seq<Iov>, left: nat)
    requires s != [] && s[0].Data? && left <= |s[0].bytes|
    ensures Wire(s) == s[0].bytes[..left] + Wire([Data(s[0].bytes[left..])] + s[1..])
  {
    var t := [Data(s[0].bytes[left..])] + s[1..];
    assert t[1..] == s[1..];
    assert s[0].bytes == s[0].bytes[..left] + s[0].bytes[left..];
    Regroup(s[0].bytes[..left], s[0].bytes[left..], Wire(s[1..]));
  }

  lemma WireHead(s: seq<Iov>)
    requires s != [] && s[0].Data?
    ensures Wire(s) == EntryPayload(s[0]) + Wire(s[1..]) && |EntryPayload(s[0])| == IovLen(s[0])
  {
  }

  /** The front of message `n` went out. */
  lemma RemainingStep(parts: seq<seq<Iov>>, parts': seq<seq<Iov>>, n: nat, w: seq<Byte>)
    requires n < |parts| == |parts'| && parts' == parts[n := parts'[n]] && Wire(parts[n]) == w + Wire(parts'[n])
    ensures Remaining(parts, n) == w + Remaining(parts', n)
  {
    hide Wire;
    RemainingFrame(parts, parts', n + 1);
    Regroup(w, Wire(parts'[n]), Remaining(parts', n + 1));
  }

  function WireLen(s: seq<Iov>): nat { if s == [] then 0 else IovLen(s[0]) + WireLen(s[1..]) }

  lemma {:induction false} WireLenIs(s: seq<Iov>)
    requires forall j :: 0 <= j < |s| ==> s[j].Data?
    ensures |Wire(s)| == WireLen(s)
  {
    if s != [] { WireLenIs(s[1..]); }
  }

  /** The message sent next lies where its header says. */
  lemma NextHolds(iov: seq<Iov>, ms: seq<Msg>, parts: seq<seq<Iov>>, base: nat, ends: seq<nat>, cur: nat, n: nat)
    requires SendOk(iov, ms, parts, base, ends, cur) && cur <= n < |ms|
    ensures base <= ms[n].iov <= base + |iov| && ms[n].iov - base + ms[n].iovlen <= |iov| && n < |parts|
    ensures WireLen(iov[ms[n].iov - base..][..ms[n].iovlen]) == |Wire(parts[n])|
  {
    assert Holds(iov, ms[n], parts[n], base, ends[n]);
    assert iov[ms[n].iov - base..][..ms[n].iovlen] == parts[n];
    WireLenIs(parts[n]);
  }

  // ---------------------------------------------------------------- datagram headers

  /** request id, number of this datagram, number of datagrams, and two zero bytes */
  function UdpHeader(requestId: nat, i: nat, n: nat): (h: seq<Byte>)
    ensures |h| == UDP_HEADER_SIZE
  {
    [requestId / 256 % 256, requestId % 256, i / 256 % 256, i % 256, n / 256 % 256, n % 256, 0, 0]
  }

  /** What a receiver reads in the first bytes of a datagram, two bytes a number, the higher first. */
  ghost predicate Announces(d: seq<Byte>, requestId: nat, i: nat, n: nat)
  {
    |d| >= 8 && Read16(d, 0) == requestId && Read16(d, 2) == i && Read16(d, 4) == n && d[6] == 0 && d[7] == 0
  }

  function Read16(d: seq<Byte>, i: nat): int
    requires i + 2 <= |d|
  {
    var hi: int, lo: int := d[i], d[i + 1];
    256 * hi + lo
  }

  /** A header says these numbers as far as they fit two bytes. */
  lemma HeaderAnnounces(requestId: nat, i: nat, n: nat, payload: seq<Byte>)
    ensures Announces(UdpHeader(requestId, i, n) + payload, requestId % 65536, i % 65536, n % 65536)
    ensures (UdpHeader(requestId, i, n) + payload)[UDP_HEADER_SIZE..] == payload
  {
    TwoBytes(requestId);
    TwoBytes(i);
    TwoBytes(n);
  }

  lemma TwoBytes(n: nat)
    ensures 256 * (n / 256 % 256) + n % 256 == n % 65536
  {
  }

  /** The first `k` messages have their headers. */
  ghost function WithHeaders(parts: seq<seq<Iov>>, requestId: nat, k: nat, n: nat): seq<seq<Iov>>
  {
    seq(|parts|, i requires 0 <= i < |parts| =>
      if i < k && parts[i] != [] then [Data(UdpHeader(requestId, i, n))] + parts[i][1..] else parts[i])
  }

  lemma SlotsLeft(parts: seq<seq<Iov>>, udp: bool, i: nat)
    requires AllOk(parts, udp) && udp && i < |parts|
    ensures parts[i] != []
  {
  }

  lemma HeadersAnnounce(parts: seq<seq<Iov>>, requestId: nat)
    requires AllOk(parts, true)
    ensures forall i {:trigger WithHeaders(parts, requestId, |parts|, |parts|)[i]} :: 0 <= i < |parts| ==>
      var d := WithHeaders(parts, requestId, |parts|, |parts|)[i];
      && d != [] && d[0].Data? && d[1..] == parts[i][1..]
      && Announces(d[0].bytes, requestId % 65536, i % 65536, |parts| % 65536)
  {
    hide AllOk, UdpHeader, Announces;
    forall i | 0 <= i < |parts|
      ensures parts[i] != []
      ensures Announces(UdpHeader(requestId, i, |parts|), requestId % 65536, i % 65536, |parts| % 65536)
    {
      SlotsLeft(parts, true, i);
      HeaderAnnounces(requestId, i, |parts|, []);
      assert UdpHeader(requestId, i, |parts|) + [] == UdpHeader(requestId, i, |parts|);
    }
  }

  /** Each datagram is its header and its payload, and is no longer than the limit. */
  lemma DatagramIs(parts: seq<seq<Iov>>, requestId: nat, i: nat)
    requires AllOk(parts, true) && i < |parts|
    ensures var d := WithHeaders(parts, requestId, |parts|, |parts|)[i];
      && (forall j :: 0 <= j < |d| ==> d[j].Data?) && |Wire(d)| <= UDP_MAX_PAYLOAD_SIZE
      && Wire(d) == UdpHeader(requestId, i, |parts|) + Payload(parts[i])
      && Announces(Wire(d), requestId % 65536, i % 65536, |parts| % 65536)
      && Wire(d)[UDP_HEADER_SIZE..] == Payload(parts[i])
  {
    hide Wire, Payload, Size, UdpHeader, Announces;
    HeaderAnnounces(requestId, i, |parts|, Payload(parts[i]));
    var p := parts[i];
    var d := WithHeaders(parts, requestId, |parts|, |parts|)[i];
    assert MsgOk(p, true, i == 0);
    assert d[1..] == p[1..];
    WireHead(d);
    WireIsPayload(p[1..]);
    assert p == [p[0]] + p[1..];
    PayloadConcat([p[0]], p[1..]);
    PayloadOne(p[0]);
    SizeIs(p);
  }

  lemma {:induction false} WireIsPayload(s: seq<Iov>)
    ensures Wire(s) == Payload(s)
  {
    hide EntryPayload;
    if s != [] {
      WireIsPayload(s[1..]);
      PayloadConcat([s[0]], s[1..]);
      PayloadOne(s[0]);
      assert s == [s[0]] + s[1..];
    }
  }

  lemma PayloadOne(x: Iov)
    ensures Payload([x]) == EntryPayload(x)
  {
    assert [x][..0] == [];
  }

  lemma {:induction false} SizeIs(s: seq<Iov>)
    requires s != [] && s[0].Slot? && forall j :: 0 < j < |s| ==> s[j].Data?
    ensures Size(s) == UDP_HEADER_SIZE + |Payload(s)|
  {
    if |s| > 1 {
      SizeIs(s[..|s| - 1]);
    } else {
      assert s[..0] == [];
    }
  }

  lemma {:induction false} FlatSet(parts: seq<seq<Iov>>, i: nat, x: Iov)
    requires i < |parts| && parts[i] != []
    ensures |Flat(parts[..i])| < |Flat(parts)|
    ensures Flat(parts[i := [x] + parts[i][1..]]) == Flat(parts)[|Flat(parts[..i])| := x]
  {
    var l := |parts| - 1;
    var parts' := parts[i := [x] + parts[i][1..]];
    if i == l {
      assert parts'[..l] == parts[..l];
    } else {
      FlatSet(parts[..l], i, x);
      assert parts[..l][..i] == parts[..i];
      assert parts'[..l] == parts[..l][i := [x] + parts[i][1..]];
    }
  }

  lemma {:induction false} FlatLength(parts: seq<seq<Iov>>, parts': seq<seq<Iov>>)
    requires |parts| == |parts'| && forall i :: 0 <= i < |parts| ==> |parts'[i]| == |parts[i]|
    ensures |Flat(parts')| == |Flat(parts)|
  {
    if parts != [] { FlatLength(parts[..|parts| - 1], parts'[..|parts| - 1]); }
  }

  lemma SetHead(v: seq<Iov>, ms: seq<Msg>, parts: seq<seq<Iov>>, base: nat, i: nat, x: Iov)
    requires Laid(v, ms, parts, base) && i < |parts| && parts[i] != []
    ensures base <= ms[i].iov < base + |v|
    ensures Laid(v[ms[i].iov - base := x], ms, parts[i := [x] + parts[i][1..]], base)
  {
    var parts' := parts[i := [x] + parts[i][1..]];
    assert PointsAt(ms[i], parts, base, i);
    FlatSet(parts, i, x);
    forall j | 0 <= j < |ms| ensures PointsAt(ms[j], parts', base, j) {
      assert PointsAt(ms[j], parts, base, j);
      FlatLength(parts[..j], parts'[..j]);
    }
  }

  // ---------------------------------------------------------------- from adding to sending

  /** Where each message's entries end. */
  ghost function Ends(parts: seq<seq<Iov>>): seq<nat>
  {
    seq(|parts|, i requires 0 <= i < |parts| => |Flat(parts[..i + 1])|)
  }

  lemma {:induction false} FlatSlice(parts: seq<seq<Iov>>, i: nat)
    requires i < |parts|
    ensures |Flat(parts[..i])| + |parts[i]| == |Flat(parts[..i + 1])| <= |Flat(parts)|
    ensures Flat(parts)[|Flat(parts[..i])|..|Flat(parts[..i + 1])|] == parts[i]
  {
    var l := |parts| - 1;
    assert parts[..i + 1][..i] == parts[..i];
    if i == l {
      assert parts[..i + 1] == parts;
    } else {
      FlatSlice(parts[..l], i);
      assert parts[..l][..i] == parts[..i] && parts[..l][..i + 1] == parts[..i + 1];
    }
  }

  lemma FlatMono(parts: seq<seq<Iov>>, i: nat, j: nat)
    requires i <= j <= |parts|
    ensures |Flat(parts[..i])| <= |Flat(parts[..j])|
  {
    if i < j {
      FlatSlice(parts[..j], i);
      assert parts[..j][..i] == parts[..i];
    }
  }

  /** Once headers are in place, the queue as it was built can be sent, and what remains is all of it. */
  lemma ReadyToSend(iov: seq<Iov>, used: nat, ms: seq<Msg>, parts: seq<seq<Iov>>, base: nat)
    requires used <= |iov| && Laid(iov[..used], ms, parts, base)
    requires forall i, j :: 0 <= i < |parts| && 0 <= j < |parts[i]| ==> parts[i][j].Data?
    ensures SendOk(iov, ms, parts, base, Ends(parts), 0) && Remaining(parts, 0) == Delivered(parts)
  {
    var ends := Ends(parts);
    forall i {:trigger Holds(iov, ms[i], parts[i], base, ends[i])} | 0 <= i < |ms|
      ensures Holds(iov, ms[i], parts[i], base, ends[i])
    {
      assert PointsAt(ms[i], parts, base, i);
      FlatSlice(parts, i);
      assert iov[..used][ends[i] - |parts[i]|..ends[i]] == iov[ends[i] - |parts[i]|..ends[i]];
    }
    forall i, j {:trigger Ahead(ms, ends, base, i, j)} | 0 <= i < j < |ms| ensures Ahead(ms, ends, base, i, j) {
      assert PointsAt(ms[j], parts, base, j);
      FlatMono(parts, i + 1, j);
    }
    RestDelivers(parts, 0);
    assert parts[..0] == [];
  }

  lemma {:induction false} RestDelivers(parts: seq<seq<Iov>>, n: nat)
    requires n <= |parts|
    ensures Delivered(parts[..n]) + Remaining(parts, n) == Delivered(parts)
    decreases |parts| - n
  {
    hide Wire, Payload;
    if n == |parts| {
      assert parts[..n] == parts;
    } else {
      RestDelivers(parts, n + 1);
      assert parts[..n + 1][..n] == parts[..n];
      WireIsPayload(parts[n]);
      Regroup(Delivered(parts[..n]), Payload(parts[n]), Remaining(parts, n + 1));
    }
  }

  // ---------------------------------------------------------------- a whole response

  function Concat(bufs: seq<seq<Byte>>): seq<Byte>
  {
    if bufs == [] then [] else Concat(bufs[..|bufs| - 1]) + bufs[|bufs| - 1]
  }

  /** The buffers of a response go into the queue of a new connection */
  method Fill(udp: bool, bufs: seq<seq<Byte>>, iovBase: nat, newBase: nat) returns (c: Conn)
    ensures c.Queued() && c.Stream() == Concat(bufs) && c.udp == udp && fresh(c)
  {
    hide Laid, AllOk, Delivered, Size;
    c := new Conn(udp, iovBase, newBase);
    assert bufs[..0] == [];
    for i := 0 to |bufs|
      invariant c.Queued() && c.Stream() == Concat(bufs[..i])
    {
      c.AddIov(bufs[i]);
      assert bufs[..i + 1][..i] == bufs[..i];
    }
    assert bufs[..|bufs|] == bufs;
  }

  lemma StreamData(parts: seq<seq<Iov>>)
    requires AllOk(parts, false)
    ensures forall i, j :: 0 <= i < |parts| && 0 <= j < |parts[i]| ==> parts[i][j].Data?
  {
    forall i | 0 <= i < |parts| ensures forall j :: 0 <= j < |parts[i]| ==> parts[i][j].Data? {
      assert MsgOk(parts[i], false, i == 0);
    }
  }

  /** A response over a stream: what was sent and what is left are the buffers, whatever sendmsg takes each time; and
      nothing is left in the end */
  method RespondTcp(bufs: seq<seq<Byte>>, iovBase: nat, newBase: nat, accept: seq<nat>)
    returns (ghost sent: seq<Byte>, ghost left: seq<Byte>, ghost messages: nat)
    ensures sent + left == Concat(bufs) && |sent| <= Sum(accept)
    ensures Takes(accept) >= |Concat(bufs)| + messages ==> left == []
    ensures |accept| >= messages && AllAtLeast(accept, |Concat(bufs)|) ==> left == []
  {
    hide Laid, AllOk, Delivered, Size, SendOk, Remaining, Concat;
    var c := Fill(false, bufs, iovBase, newBase);
    StreamData(c.parts);
    ReadyToSend(c.iov, c.iovused, c.msglist[..c.msgused], c.parts, c.iovBase);
    messages := |c.parts|;
    sent := c.Drive(accept, Ends(c.parts));
    left := Remaining(c.parts, c.msgcurr);
  }

  /** Datagrams number `k` and up of `n` with these payloads. */
  ghost function Datagrams(payloads: seq<seq<Byte>>, requestId: nat, k: nat): seq<Byte>
    requires k <= |payloads|
    decreases |payloads| - k
  {
    if k == |payloads| then []
    else UdpHeader(requestId, k, |payloads|) + payloads[k] + Datagrams(payloads, requestId, k + 1)
  }

  ghost function Payloads(parts: seq<seq<Iov>>): seq<seq<Byte>>
  {
    seq(|parts|, i requires 0 <= i < |parts| => Payload(parts[i]))
  }

  lemma {:induction false} PayloadsConcat(parts: seq<seq<Iov>>)
    ensures Concat(Payloads(parts)) == Delivered(parts)
  {
    hide Payload;
    if parts != [] {
      var l := |parts| - 1;
      PayloadsConcat(parts[..l]);
      assert Payloads(parts)[..l] == Payloads(parts[..l]);
    }
  }

  lemma {:induction false} RemainingDatagrams(parts: seq<seq<Iov>>, requestId: nat, k: nat)
    requires AllOk(parts, true) && k <= |parts|
    ensures Remaining(WithHeaders(parts, requestId, |parts|, |parts|), k) == Datagrams(Payloads(parts), requestId, k)
    decreases |parts| - k
  {
    hide Wire, Payload, UdpHeader, AllOk;
    if k < |parts| {
      DatagramIs(parts, requestId, k);
      RemainingDatagrams(parts, requestId, k + 1);
    }
  }

  /** The datagrams one by one. */
  ghost function Grams(payloads: seq<seq<Byte>>, requestId: nat): seq<seq<Byte>>
  {
    seq(|payloads|, i requires 0 <= i < |payloads| => UdpHeader(requestId, i, |payloads|) + payloads[i])
  }

  lemma {:induction false} GramsConcat(payloads: seq<seq<Byte>>, requestId: nat, k: nat)
    requires k <= |payloads|
    ensures Concat(Grams(payloads, requestId)) ==
            Concat(Grams(payloads, requestId)[..k]) + Datagrams(payloads, requestId, k)
    decreases |payloads| - k
  {
    hide UdpHeader, Concat, Grams;
    var grams := Grams(payloads, requestId);
    GramCount(payloads, requestId);
    if k == |payloads| {
      assert grams[..k] == grams;
    } else {
      GramsConcat(payloads, requestId, k + 1);
      GramAt(payloads, requestId, k);
      ConcatSnoc(grams[..k], grams[k]);
      assert grams[..k + 1] == grams[..k] + [grams[k]];
      Regroup(Concat(grams[..k]), grams[k], Datagrams(payloads, requestId, k + 1));
    }
  }

  lemma GramAt(payloads: seq<seq<Byte>>, requestId: nat, k: nat)
    requires k < |payloads|
    ensures Grams(payloads, requestId)[k] == UdpHeader(requestId, k, |payloads|) + payloads[k]
  {
    hide UdpHeader;
  }

  lemma ConcatSnoc(bufs: seq<seq<Byte>>, buf: seq<Byte>)
    ensures Concat(bufs + [buf]) == Concat(bufs) + buf
  {
    assert (bufs + [buf])[..|bufs|] == bufs;
  }

  // ---------------------------------------------------------------- the receiver of datagrams

  ghost predicate Headed(ds: seq<seq<Byte>>) { forall i :: 0 <= i < |ds| ==> |ds[i]| >= UDP_HEADER_SIZE }

  /** What is behind the header of the first datagram with number `i`. */
  ghost function Body(ds: seq<seq<Byte>>, i: nat): seq<Byte>
    requires Headed(ds)
  {
    if ds == [] then []
    else if Read16(ds[0], 2) == i then ds[0][UDP_HEADER_SIZE..]
    else Body(ds[1..], i)
  }

  /** A receiver puts `n` datagrams in the order of their numbers. */
  ghost function Assembled(ds: seq<seq<Byte>>, n: nat): seq<Byte>
    requires Headed(ds)
  {
    if n == 0 then [] else Assembled(ds, n - 1) + Body(ds, n - 1)
  }

  lemma {:induction false} BodyIs(ds: seq<seq<Byte>>, i: nat, j: nat)
    requires Headed(ds) && j < |ds| && Read16(ds[j], 2) == i
    requires forall k :: 0 <= k < |ds| && Read16(ds[k], 2) == i ==> ds[k] == ds[j]
    ensures Body(ds, i) == ds[j][UDP_HEADER_SIZE..]
  {
    if Read16(ds[0], 2) != i {
      BodyIs(ds[1..], i, j - 1);
    }
  }

  lemma {:induction false} AssembledIs(ds: seq<seq<Byte>>, payloads: seq<seq<Byte>>, n: nat)
    requires Headed(ds) && n <= |payloads| && forall i :: 0 <= i < n ==> Body(ds, i) == payloads[i]
    ensures Assembled(ds, n) == Concat(payloads[..n])
  {
    hide Body;
    if n > 0 {
      AssembledIs(ds, payloads, n - 1);
      assert payloads[..n][..n - 1] == payloads[..n - 1];
    }
  }

  /** Gram `i` says what it should, if there are not too many for two bytes. */
  lemma GramIs(payloads: seq<seq<Byte>>, requestId: nat, i: nat)
    requires i < |payloads| < 65536
    ensures var d := Grams(payloads, requestId)[i];
      Announces(d, requestId % 65536, i, |payloads|) && d[UDP_HEADER_SIZE..] == payloads[i]
  {
    hide UdpHeader, Announces;
    HeaderAnnounces(requestId, i, |payloads|, payloads[i]);
  }

  /** However the network reorders the datagrams, the receiver reads in each how many there are, and in the order of
      their numbers gets the payloads. */
  lemma Reassembles(payloads: seq<seq<Byte>>, requestId: nat, ds: seq<seq<Byte>>)
    requires |payloads| < 65536 && multiset(ds) == multiset(Grams(payloads, requestId))
    ensures Headed(ds) && Assembled(ds, |payloads|) == Concat(payloads) && |ds| == |payloads|
    ensures forall i :: 0 <= i < |ds| ==> Read16(ds[i], 0) == requestId % 65536 && Read16(ds[i], 4) == |ds|
  {
    hide Body, Assembled, Grams;
    var grams := Grams(payloads, requestId);
    assert |grams| == |payloads| by { GramCount(payloads, requestId); }
    assert |multiset(ds)| == |ds| && |multiset(grams)| == |grams|;
    forall i | 0 <= i < |grams| ensures Announces(grams[i], requestId % 65536, i, |payloads|) {
      GramIs(payloads, requestId, i);
    }
    forall j | 0 <= j < |ds| ensures exists i :: 0 <= i < |grams| && grams[i] == ds[j] {
      assert ds[j] in multiset(grams);
    }
    forall i | 0 <= i < |payloads| ensures Body(ds, i) == payloads[i] {
      GramIs(payloads, requestId, i);
      assert grams[i] in multiset(ds);
      var j :| 0 <= j < |ds| && ds[j] == grams[i];
      BodyIs(ds, i, j);
    }
    AssembledIs(ds, payloads, |payloads|);
    assert payloads[..|payloads|] == payloads;
  }

  lemma GramCount(payloads: seq<seq<Byte>>, requestId: nat)
    ensures |Grams(payloads, requestId)| == |payloads|
  {
  }

  lemma HeadersData(parts: seq<seq<Iov>>, requestId: nat)
    requires AllOk(parts, true)
    ensures var ds := WithHeaders(parts, requestId, |parts|, |parts|);
      forall i, j :: 0 <= i < |ds| && 0 <= j < |ds[i]| ==> ds[i][j].Data?
    ensures forall i :: 0 <= i < |parts| ==> UDP_HEADER_SIZE + |Payload(parts[i])| <= UDP_MAX_PAYLOAD_SIZE
  {
    hide AllOk, Wire, Payload;
    forall i | 0 <= i < |parts|
      ensures UDP_HEADER_SIZE + |Payload(parts[i])| <= UDP_MAX_PAYLOAD_SIZE
      ensures var d := WithHeaders(parts, requestId, |parts|, |parts|)[i]; forall j :: 0 <= j < |d| ==> d[j].Data?
    {
      DatagramIs(parts, requestId, i);
    }
  }

  /** If `ds` is the datagrams `grams` in some order, a receiver makes `text` of them. */
  ghost predicate Conveys(ds: seq<seq<Byte>>, grams: seq<seq<Byte>>, text: seq<Byte>)
  {
    multiset(ds) == multiset(grams) ==> Headed(ds) && Assembled(ds, |grams|) == text
  }

  lemma ReceiverGets(payloads: seq<seq<Byte>>, requestId: nat)
    ensures var grams := Grams(payloads, requestId);
      && |grams| == |payloads| && Concat([]) == []
      && (forall i :: 0 <= i < |grams| ==> |grams[i]| == UDP_HEADER_SIZE + |payloads[i]|)
      && (|grams| < 65536 ==> forall i :: 0 <= i < |grams| ==> Announces(grams[i], requestId % 65536, i, |grams|))
      && (|grams| < 65536 ==> forall ds :: Conveys(ds, grams, Concat(payloads)))
  {
    hide Concat, Assembled, Announces;
    var grams := Grams(payloads, requestId);
    assert Concat([]) == [] by { NoBufs(); }
    if |payloads| < 65536 {
      forall i | 0 <= i < |grams| ensures Announces(grams[i], requestId % 65536, i, |grams|) {
        GramIs(payloads, requestId, i);
      }
      forall ds ensures Conveys(ds, grams, Concat(payloads)) {
        if multiset(ds) == multiset(grams) { Reassembles(payloads, requestId, ds); }
      }
    }
  }

  lemma NoBufs()
    ensures Concat([]) == []
  {
  }

  /** A response over datagrams: what was sent and what is left are datagrams within the limit, numbered from 0 to
      their count; a receiver who gets them all, in any order, puts the buffers together again */
  method RespondUdp(bufs: seq<seq<Byte>>, requestId: nat, iovBase: nat, newBase: nat, accept: seq<nat>)
    returns (ghost sent: seq<Byte>, ghost left: seq<Byte>, ghost grams: seq<seq<Byte>>, ghost payloads: seq<seq<Byte>>)
    ensures sent + left == Concat(grams) && grams == Grams(payloads, requestId) && Concat(payloads) == Concat(bufs)
    ensures Takes(accept) >= |Concat(grams)| + |grams| ==> left == []
    ensures |accept| >= |grams| && AllAtLeast(accept, |Concat(grams)|) ==> left == []
    ensures forall i :: 0 <= i < |grams| ==> UDP_HEADER_SIZE <= |grams[i]| <= UDP_MAX_PAYLOAD_SIZE
    ensures |grams| < 65536 ==> forall i :: 0 <= i < |grams| ==> Announces(grams[i], requestId % 65536, i, |grams|)
    ensures |grams| < 65536 ==> forall ds :: Conveys(ds, grams, Concat(bufs))
  {
    hide Laid, AllOk, Delivered, Size, SendOk, Remaining, Concat, Datagrams, WithHeaders, Payload, Grams, Announces;
    hide Conveys;
    var c := Fill(true, bufs, iovBase, newBase);
    payloads := Payloads(c.parts);
    grams := Grams(payloads, requestId);
    GramsConcat(payloads, requestId, 0);
    assert grams[..0] == [];
    ReceiverGets(payloads, requestId);
    PayloadsConcat(c.parts);
    HeadersData(c.parts, requestId);
    RemainingDatagrams(c.parts, requestId, 0);
    c.BuildUdpHeaders(requestId);
    ReadyToSend(c.iov, c.iovused, c.msglist[..c.msgused], c.parts, c.iovBase);
    sent := c.Drive(accept, Ends(c.parts));
    left := Remaining(c.parts, c.msgcurr);
  }
}
