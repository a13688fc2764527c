/** The two UDP relays of ASM-TUN-V1.0.asm. Each receives a datagram into its one 4096-byte buffer, flips it
    with 0x5A in place, and forwards it: the relay abroad learns its peer from datagrams that do not come
    from 127.0.0.1, the relay at home from those that do, and replies go to the address last learned. */
module Relay {

  const BUFFER_SIZE := 4096

  /** A sockaddr_in: bytes 4 to 7 are the IPv4 address. */
  type Addr = a: seq<bv8> | |a| == 16 witness [0, 0, 0, 0, 0, 0, 0, 0, 0, 0, 0, 0, 0, 0, 0, 0]

  /** An address the relay has never written: .bss starts as zeroes. */
  const UNSET: Addr := [0, 0, 0, 0, 0, 0, 0, 0, 0, 0, 0, 0, 0, 0, 0, 0]

  predicate FromLocalhost(a: Addr) { a[4..8] == [0x7f, 0x00, 0x00, 0x01] }

  function Received(d: seq<bv8>): seq<bv8> { if |d| <= BUFFER_SIZE then d else d[..BUFFER_SIZE] }

  /** xor al, 0x5A */
  function Flip(al: bv8): bv8 { al ^ 0x5A }

  function Xor(d: seq<bv8>): (x: seq<bv8>)
    ensures |x| == |d|
  {
    seq(|d|, i requires 0 <= i < |d| => Flip(d[i]))
  }

  lemma XorCancels(d: seq<bv8>)
    ensures Xor(Xor(d)) == d
  {
  }

  datatype Sent = Nothing | Sent(to: Addr, payload: seq<bv8>)

  /** One turn of .loop. learnsLocal tells the two programs apart. */
  function Turn(learnsLocal: bool, fixed: Addr, learned: Addr, d: seq<bv8>, from: Addr): (Addr, Sent) {
    if d == [] then (learned, Nothing)
    else if FromLocalhost(from) == learnsLocal then (from, Sent(fixed, Xor(Received(d))))
    else (learned, Sent(learned, Xor(Received(d))))
  }

  lemma XorSays(d: seq<bv8>)
    ensures var x := Xor(Received(d));
            && |x| == (if |d| <= 4096 then |d| else 4096)
            && forall i | 0 <= i < |x| :: x[i] == d[i] ^ 0x5A
  {
  }

  lemma LocalhostSays(a: Addr)
    ensures FromLocalhost(a) <==> a[4..8] == [127, 0, 0, 1]
  {
  }

  /** A turn in the program's own terms: every byte of the datagram that fits is flipped with 0x5A, and where it goes
      depends on whether it came from 127.0.0.1. */
  lemma TurnSays(learnsLocal: bool, fixed: Addr, learned: Addr, d: seq<bv8>, from: Addr)
    ensures var (learned', sent) := Turn(learnsLocal, fixed, learned, d, from);
            && (d == [] ==> sent == Nothing && learned' == learned)
            && (d != [] ==>
                  && sent.Sent? && |sent.payload| == (if |d| <= 4096 then |d| else 4096)
                  && (forall i | 0 <= i < |sent.payload| :: sent.payload[i] == d[i] ^ 0x5A)
                  && if (from[4..8] == [127, 0, 0, 1]) == learnsLocal then sent.to == fixed && learned' == from
                     else sent.to == learned' == learned)
  {
    XorSays(d);
    LocalhostSays(from);
  }

  class UdpRelay {
    const learnsLocal: bool  // asm_udp_ir learns gost_addr; asm_udp_hz learns ir_addr
    const fixed: Addr        // hz_addr there; gost_addr here
    const buffer: array<bv8>
    var learned: Addr

    constructor (learnsLocal: bool, fixed: Addr)
      ensures this.learnsLocal == learnsLocal && this.fixed == fixed && learned == UNSET
      ensures buffer.Length == BUFFER_SIZE && fresh(buffer)
    {
      this.learnsLocal, this.fixed, learned, buffer := learnsLocal, fixed, UNSET, new bv8[BUFFER_SIZE];
    }

    /** recvfrom: a longer datagram is cut to the buffer. */
    method Recv(d: seq<bv8>) returns (r12: nat)
      requires buffer.Length == BUFFER_SIZE
      modifies buffer
      ensures r12 == |Received(d)| && buffer[..r12] == Received(d)
    {
      r12 := |Received(d)|;
      forall i | 0 <= i < r12 {
        buffer[i] := d[i];
      }
    }

    /** .xor_loop */
    method XorLoop(r12: nat)
      requires 0 < r12 <= buffer.Length
      modifies buffer
      ensures buffer[..r12] == Xor(old(buffer[..r12]))
    {
      var rcx := 0;
      while rcx < r12
        invariant rcx <= r12
        invariant forall i | 0 <= i < rcx :: buffer[i] == Flip(old(buffer[i]))
        invariant forall i | rcx <= i < r12 :: buffer[i] == old(buffer[i])
      {
        var al := buffer[rcx];
        al := Flip(al);
        buffer[rcx] := al;
        rcx := rcx + 1;
      }
    }

    /** The body of .loop for one recvfrom; an error or an empty datagram only loops again. */
    method Handle(d: seq<bv8>, from: Addr) returns (sent: Sent)
      requires buffer.Length == BUFFER_SIZE
      modifies this`learned, buffer
      ensures (learned, sent) == Turn(learnsLocal, fixed, old(learned), d, from)
      ensures d == [] ==> sent == Nothing && learned == old(learned)
      ensures d != [] ==>
                && sent.Sent? && |sent.payload| == (if |d| <= 4096 then |d| else 4096)
                && (forall i | 0 <= i < |sent.payload| :: sent.payload[i] == d[i] ^ 0x5A)
                && (if (from[4..8] == [127, 0, 0, 1]) == learnsLocal then sent.to == fixed && learned == from
                    else sent.to == old(learned) == learned)
    {
      TurnSays(learnsLocal, fixed, learned, d, from);
      var r12 := Recv(d);
      if r12 <= 0 {
        return Nothing;
      }
      XorLoop(r12);
      if FromLocalhost(from) == learnsLocal {
        learned := from;
        sent := Sent(fixed, buffer[..r12]);
      } else {
        sent := Sent(learned, buffer[..r12]);
      }
    }
  }

  // The pair -------------------------------------------------------------------------------------------------

  /** A datagram on the network between the relays, with the one it was made from. */
  datatype Packet = Packet(wire: seq<bv8>, original: seq<bv8>, to: Addr)

  /** A datagram sent to a local program, and whether it came through both relays or from a stranger. */
  datatype Delivery = Delivery(out: seq<bv8>, original: seq<bv8>, to: Addr, crossed: bool)

  /** clients and peers record, in order, whom the relay at home and the one abroad have heard from on the side
      they learn from. The network keeps every packet and may deliver any of them, any number of times. */
  datatype Pair = Pair(
    home: Addr, abroad: Addr, toAbroad: seq<Packet>, toHome: seq<Packet>,
    delivered: seq<Delivery>, clients: seq<Addr>, peers: seq<Addr>)

  datatype Step =
    | ClientSends(d: seq<bv8>, from: Addr)
    | AbroadReceives(i: nat, from: Addr)
    | ServerSends(d: seq<bv8>, from: Addr)
    | HomeReceives(i: nat, from: Addr)
    | StrangerAbroad(d: seq<bv8>, from: Addr)  // anyone else reaching the relay abroad
    | StrangerAtHome(d: seq<bv8>, from: Addr)  // or the one at home

  const START := Pair(UNSET, UNSET, [], [], [], [], [])

  /** The fixed addresses: hz_addr at home, which is the relay abroad, and gost_addr abroad; and those the relay at home
      may be seen under from abroad. */
  datatype Config = Config(hzAddr: Addr, gostAddr: Addr, homes: set<Addr>)

  /** A packet reaches the relay it is addressed to. */
  predicate Enabled(cfg: Config, p: Pair, st: Step) {
    match st
    case ClientSends(d, from) => FromLocalhost(from) && d != []
    case AbroadReceives(i, from) =>
      !FromLocalhost(from) && from in cfg.homes && i < |p.toAbroad| && p.toAbroad[i].to == cfg.hzAddr
    case ServerSends(d, from) => FromLocalhost(from) && d != []
    case HomeReceives(i, from) =>
      !FromLocalhost(from) && i < |p.toHome| && p.toHome[i].to in cfg.homes
    case StrangerAbroad(d, from) => !FromLocalhost(from) && from !in cfg.homes && d != []
    case StrangerAtHome(d, from) => !FromLocalhost(from) && d != []
  }

  function Apply(cfg: Config, p: Pair, st: Step): Pair
    requires Enabled(cfg, p, st)
  {
    match st
    case ClientSends(d, from) =>
      var (home, s) := Turn(true, cfg.hzAddr, p.home, d, from);
      p.(home := home, clients := p.clients + [from], toAbroad := Post(p.toAbroad, s, d))
    case AbroadReceives(i, from) =>
      var m := p.toAbroad[i];
      var (abroad, s) := Turn(false, cfg.gostAddr, p.abroad, m.wire, from);
      p.(abroad := abroad, peers := p.peers + [from], delivered := Hand(p.delivered, s, m.original, true))
    case ServerSends(d, from) =>
      var (abroad, s) := Turn(false, cfg.gostAddr, p.abroad, d, from);
      p.(abroad := abroad, toHome := Post(p.toHome, s, d))
    case HomeReceives(i, from) =>
      var m := p.toHome[i];
      var (home, s) := Turn(true, cfg.hzAddr, p.home, m.wire, from);
      p.(home := home, delivered := Hand(p.delivered, s, m.original, true))
    case StrangerAbroad(d, from) =>
      var (abroad, s) := Turn(false, cfg.gostAddr, p.abroad, d, from);
      p.(abroad := abroad, peers := p.peers + [from], delivered := Hand(p.delivered, s, d, false))
    case StrangerAtHome(d, from) =>
      var (home, s) := Turn(true, cfg.hzAddr, p.home, d, from);
      p.(home := home, delivered := Hand(p.delivered, s, d, false))
  }

  function Post(packets: seq<Packet>, s: Sent, original: seq<bv8>): seq<Packet> {
    if s.Nothing? then packets else packets + [Packet(s.payload, original, s.to)]
  }

  function Hand(delivered: seq<Delivery>, s: Sent, original: seq<bv8>, crossed: bool): seq<Delivery> {
    if s.Nothing? then delivered else delivered + [Delivery(s.payload, original, s.to, crossed)]
  }

  ghost predicate Run(cfg: Config, pairs: seq<Pair>, steps: seq<Step>) {
    |pairs| == |steps| + 1 && pairs[0] == START
    && forall k | 0 <= k < |steps| :: Enabled(cfg, pairs[k], steps[k]) && pairs[k + 1] == Apply(cfg, pairs[k], steps[k])
  }

  function Latest(addrs: seq<Addr>): Addr { if addrs == [] then UNSET else addrs[|addrs| - 1] }

  /** Every packet in flight is the flipped original, every datagram delivered from the far end the original again,
      and a stranger's arrives flipped. */
  predicate Inv(p: Pair) {
    && p.home == Latest(p.clients) && p.abroad == Latest(p.peers)
    && (forall i | 0 <= i < |p.toAbroad| :: Flipped(p.toAbroad[i]))
    && (forall i | 0 <= i < |p.toHome| :: Flipped(p.toHome[i]))
    && (forall i | 0 <= i < |p.delivered| ::
          var d := p.delivered[i];
          d.original != [] && d.out == if d.crossed then Received(d.original) else Xor(Received(d.original)))
  }

  predicate Flipped(m: Packet) { m.original != [] && m.wire == Xor(Received(m.original)) }

  /** The second relay undoes the first. */
  lemma TurnUndoes(m: Packet, learnsLocal: bool, fixed: Addr, learned: Addr, from: Addr)
    requires Flipped(m)
    ensures var s := Turn(learnsLocal, fixed, learned, m.wire, from).1;
            s.Sent? && s.payload == Received(m.original)
  {
  }

  lemma StepInv(cfg: Config, p: Pair, st: Step)
    requires Inv(p) && Enabled(cfg, p, st)
    ensures Inv(Apply(cfg, p, st))
  {
    match st
    case AbroadReceives(i, from) => TurnUndoes(p.toAbroad[i], false, cfg.gostAddr, p.abroad, from);
    case HomeReceives(i, from) => TurnUndoes(p.toHome[i], true, cfg.hzAddr, p.home, from);
    case ClientSends(_, _) =>
    case ServerSends(_, _) =>
    case StrangerAbroad(_, _) =>
    case StrangerAtHome(_, _) =>
  }

  lemma {:induction false} RunInv(cfg: Config, pairs: seq<Pair>, steps: seq<Step>, k: nat)
    requires Run(cfg, pairs, steps) && k < |pairs|
    ensures Inv(pairs[k])
  {
    if k > 0 {
      RunInv(cfg, pairs, steps, k - 1);
      StepInv(cfg, pairs[k - 1], steps[k - 1]);
    }
  }

  lemma FlipChanges(al: bv8)
    ensures Flip(al) != al
  {
  }

  lemma XorChanges(d: seq<bv8>)
    requires d != []
    ensures Xor(Received(d)) != d
  {
    FlipChanges(d[0]);
    assert Xor(Received(d))[0] == Flip(d[0]);
  }

  /** Over every run, with any loss, duplication and reordering between the relays, and with strangers sending to
      both: a datagram handed to a local program is the one sent exactly when it has crossed both relays and
      had at most 4096 bytes. Longer ones come out cut, a stranger's flipped. */
  lemma PairIsTransparent(cfg: Config, pairs: seq<Pair>, steps: seq<Step>, k: nat, i: nat)
    requires Run(cfg, pairs, steps) && k < |pairs| && i < |pairs[k].delivered|
    ensures var d := pairs[k].delivered[i];
            && d.out == (if d.crossed then Received(d.original) else Xor(Received(d.original)))
            && (d.out == d.original <==> d.crossed && |d.original| <= 4096)
  {
    RunInv(cfg, pairs, steps, k);
    if !pairs[k].delivered[i].crossed {
      XorChanges(pairs[k].delivered[i].original);
    }
  }

  /** Everything sent is sent to the right place. A client's datagram goes to hz_addr; a server's to the latest
      non-local sender; one that arrives at home to the latest local one, and one that arrives abroad to gost_addr,
      a stranger's too. Anyone who reaches the relay abroad becomes its peer. */
  lemma RepliesGoToLatest(cfg: Config, pairs: seq<Pair>, steps: seq<Step>, k: nat)
    requires Run(cfg, pairs, steps) && k < |steps|
    ensures var p, p' := pairs[k], pairs[k + 1];
            match steps[k]
            case ClientSends(d, from) =>
              p' == p.(home := from, clients := p.clients + [from],
                       toAbroad := p.toAbroad + [Packet(Xor(Received(d)), d, cfg.hzAddr)])
            case ServerSends(d, from) =>
              p' == p.(toHome := p.toHome + [Packet(Xor(Received(d)), d, Latest(p.peers))])
            case AbroadReceives(i, from) =>
              var d := p.toAbroad[i].original;
              p' == p.(abroad := from, peers := p.peers + [from],
                       delivered := p.delivered + [Delivery(Received(d), d, cfg.gostAddr, true)])
            case HomeReceives(i, from) =>
              var d := p.toHome[i].original;
              p' == p.(delivered := p.delivered + [Delivery(Received(d), d, Latest(p.clients), true)])
            case StrangerAbroad(d, from) =>
              p' == p.(abroad := from, peers := p.peers + [from],
                       delivered := p.delivered + [Delivery(Xor(Received(d)), d, cfg.gostAddr, false)])
            case StrangerAtHome(d, from) =>
              p' == p.(delivered := p.delivered + [Delivery(Xor(Received(d)), d, Latest(p.clients), false)])
  {
    RunInv(cfg, pairs, steps, k);
    match steps[k]
    case AbroadReceives(i, from) => TurnUndoes(pairs[k].toAbroad[i], false, cfg.gostAddr, pairs[k].abroad, from);
    case HomeReceives(i, from) => TurnUndoes(pairs[k].toHome[i], true, cfg.hzAddr, pairs[k].home, from);
    case ClientSends(_, _) =>
    case ServerSends(_, _) =>
    case StrangerAbroad(_, _) =>
    case StrangerAtHome(_, _) =>
  }

  /** A client's datagram can always arrive abroad. A server's can arrive at home exactly if the relay abroad has heard
      from the relay at home, and from no stranger since. */
  lemma WhatCanArrive(cfg: Config, pairs: seq<Pair>, steps: seq<Step>, k: nat, from: Addr)
    requires Run(cfg, pairs, steps) && k < |steps| && !FromLocalhost(from) && from in cfg.homes
    ensures steps[k].ClientSends? ==> Enabled(cfg, pairs[k + 1], AbroadReceives(|pairs[k].toAbroad|, from))
    ensures steps[k].ServerSends? ==>
              (Enabled(cfg, pairs[k + 1], HomeReceives(|pairs[k].toHome|, from)) <==> Latest(pairs[k].peers) in cfg.homes)
  {
    RepliesGoToLatest(cfg, pairs, steps, k);
  }

  /** A local address, and one that is not. */
  const LOCAL: Addr := [2, 0, 0, 0, 0x7f, 0x00, 0x00, 0x01, 0, 0, 0, 0, 0, 0, 0, 0]
  const REMOTE: Addr := [2, 0, 0, 0, 10, 0, 0, 1, 0, 0, 0, 0, 0, 0, 0, 0]

  lemma LocalAndRemote()
    ensures FromLocalhost(LOCAL) && !FromLocalhost(REMOTE)
  {
    assert LOCAL[4..8] == [LOCAL[4], LOCAL[5], LOCAL[6], LOCAL[7]];
    assert REMOTE[4..8][0] == REMOTE[4] == 10;
  }

  /** A run in which a client's datagram of more than 4096 bytes comes out of the other relay without the rest. */
  lemma LongDatagramIsCut(cfg: Config, d: seq<bv8>) returns (pairs: seq<Pair>, steps: seq<Step>)
    requires |d| > 4096 && REMOTE in cfg.homes
    ensures Run(cfg, pairs, steps) && |steps| == 2
    ensures pairs[2].delivered == [Delivery(d[..4096], d, cfg.gostAddr, true)]
  {
    var sent := Packet(Xor(d[..4096]), d, cfg.hzAddr);
    var p1 := Pair(LOCAL, UNSET, [sent], [], [], [LOCAL], []);
    var p2 := Pair(LOCAL, REMOTE, [sent], [], [Delivery(d[..4096], d, cfg.gostAddr, true)], [LOCAL], [REMOTE]);
    assert Apply(cfg, START, ClientSends(d, LOCAL)) == p1;
    LocalAndRemote();
    TurnUndoes(sent, false, cfg.gostAddr, UNSET, REMOTE);
    assert Apply(cfg, p1, AbroadReceives(0, REMOTE)) == p2;
    pairs, steps := [START, p1, p2], [ClientSends(d, LOCAL), AbroadReceives(0, REMOTE)];
  }
}
