/** Reading back what the panel printed: handlePeer and parsePeers recover exactly the configured peers from
    the unit text of buildUnit, and main splits -remotes into the same list. */
module PanelRoundTrip {
  import opened Bytes
  import opened Text
  import opened Panel
  import opened PanelSpec

  /** A value that survives as one token and is not mistaken for a flag. */
  predicate Printable(s: string) { Word(s) && s[0] != '-' }

  predicate AllPrintable(args: seq<Arg>) {
    forall i | 0 <= i < |args| && args[i].Value? :: Printable(args[i].text)
  }

  /** An endpoint of the multi-server list. */
  predicate Endpoint(s: string) { Printable(s) && Bare(Quote, s) && Without(s, ',') }

  /** Every value the form prints is one token, and the peers' own fields have no quotes around them and, in
      the multi-server list, no commas. */
  predicate Clean(f: Form) {
    && AllPrintable(ExecArgs(f))
    && (f.transport.Raw? ==> Bare(Quote, RawDstIp(f)))
    && (!f.server && !f.transport.Raw? && !f.mp ==> Bare(Quote, Val(f.remote, "SERVER_IP:4443")))
    && (!f.server && !f.transport.Raw? && f.mp ==>
          forall i | 0 <= i < |MultiEndpoints(f)| :: Endpoint(MultiEndpoints(f)[i]))
  }

  // Tokens ----------------------------------------------------------------------------------------------

  lemma FlagIsWord(fl: Flag)
    ensures Word(Name(fl)) && Name(fl)[0] == '-'
  {
  }

  lemma PrintedWords(f: Form)
    requires Clean(f)
    ensures forall i | 0 <= i < |ExecArgs(f)| :: Word(PrintAll(ExecArgs(f))[i])
  {
    forall i | 0 <= i < |ExecArgs(f)|
      ensures Word(PrintAll(ExecArgs(f))[i])
    {
      if ExecArgs(f)[i].Opt? {
        FlagIsWord(ExecArgs(f)[i].flag);
      }
    }
  }

  lemma PrintedTokens(f: Form)
    requires Clean(f)
    ensures Fields(BuildExec(f)) == PrintAll(ExecArgs(f))
  {
    PrintedWords(f);
    FieldsOfJoin(PrintAll(ExecArgs(f)));
  }

  predicate PeerFlag(a: Arg) { a == Opt(Remote) || a == Opt(Remotes) || a == Opt(DstIp) }

  lemma PrintedFlag(args: seq<Arg>, i: nat)
    requires AllPrintable(args) && i < |args|
    ensures Print(args[i]) == "-remote" <==> args[i] == Opt(Remote)
    ensures Print(args[i]) == "-remotes" <==> args[i] == Opt(Remotes)
    ensures Print(args[i]) == "-dstip" <==> args[i] == Opt(DstIp)
    ensures Print(args[i]) == "-dstport" <==> args[i] == Opt(DstPort)
  {
  }

  lemma NoPeerFlag(args: seq<Arg>, i: nat)
    requires AllPrintable(args) && i < |args| && !PeerFlag(args[i])
    ensures PeersAt(PrintAll(args), i) == []
  {
    PrintedFlag(args, i);
  }

  lemma {:induction false} OnlyPiece<T>(pieces: seq<seq<T>>, k: nat)
    requires forall i | 0 <= i < |pieces| && i != k :: pieces[i] == []
    ensures Flatten(pieces) == if k < |pieces| then pieces[k] else []
  {
    if pieces != [] {
      OnlyPiece(pieces[1..], if k == 0 then |pieces| else k - 1);
    }
  }

  /** If at most one argument of a command line names peers, the peers are what it contributes. */
  lemma OnePeerFlag(args: seq<Arg>, k: nat)
    requires AllPrintable(args)
    requires forall i | 0 <= i < |args| && i != k :: !PeerFlag(args[i])
    ensures Flatten(Contributions(PrintAll(args))) == if k < |args| then PeersAt(PrintAll(args), k) else []
  {
    forall i | 0 <= i < |args| && i != k
      ensures PeersAt(PrintAll(args), i) == []
    {
      NoPeerFlag(args, i);
    }
    OnlyPiece(Contributions(PrintAll(args)), k);
  }

  lemma {:induction false} PortFound(args: seq<Arg>, j: nat, n: nat)
    requires AllPrintable(args) && j < n < |args|
    requires forall i | 0 <= i < n :: args[i] == Opt(DstPort) <==> i == j
    ensures LastPort(PrintAll(args), n) == Print(args[j + 1])
  {
    PrintedFlag(args, n - 1);
    if j < n - 1 {
      PortFound(args, j, n - 1);
    }
  }

  // The three kinds of command line ----------------------------------------------------------------------

  lemma RawPeers(args: seq<Arg>, ip: string, port: string)
    requires AllPrintable(args) && |args| == 15 && Bare(Quote, ip) && port != ""
    requires forall i | 0 <= i < 15 && i != 9 :: !PeerFlag(args[i])
    requires forall i | 0 <= i < 14 :: args[i] == Opt(DstPort) <==> i == 13
    requires args[9] == Opt(DstIp) && args[10] == Value(ip) && args[14] == Value(port)
    ensures Flatten(Contributions(PrintAll(args))) == [ip + ":" + port]
  {
    OnePeerFlag(args, 9);
    PortFound(args, 13, 14);
    PrintedFlag(args, 9);
    TrimOfBare(Quote, ip);
  }

  /** The raw command line from its second flag on, behind any seven arguments that name no peer and no port. */
  lemma RawTailLayout(pre: seq<Arg>, f: Form)
    requires |pre| == 7 && forall i | 0 <= i < 7 :: !PeerFlag(pre[i]) && pre[i] != Opt(DstPort)
    ensures var args := pre + RawArgs(f);
            && |args| == 15
            && args[9] == Opt(DstIp) && args[10] == Value(RawDstIp(f)) && args[14] == Value(RawDstPort(f))
            && (forall i | 0 <= i < 15 && i != 9 :: !PeerFlag(args[i]))
            && (forall i | 0 <= i < 14 :: args[i] == Opt(DstPort) <==> i == 13)
  {
  }

  lemma RawLayout(f: Form)
    requires f.transport.Raw?
    ensures var args := ExecArgs(f);
            && |args| == 15
            && args[9] == Opt(DstIp) && args[10] == Value(RawDstIp(f)) && args[14] == Value(RawDstPort(f))
            && (forall i | 0 <= i < 15 && i != 9 :: !PeerFlag(args[i]))
            && (forall i | 0 <= i < 14 :: args[i] == Opt(DstPort) <==> i == 13)
  {
    var two := if f.server then [Opt(Target), Value(Val(f.target, "127.0.0.1:443"))]
               else [Opt(Listen), Value(Val(f.cliListen, "127.0.0.1:9000"))];
    ModeNamesNoPeer(f);
    Assoc(ModeArgs(f), two, RawArgs(f));
    RawTailLayout(ModeArgs(f) + two, f);
  }

  lemma ModeNamesNoPeer(f: Form)
    ensures forall i | 0 <= i < 5 :: !PeerFlag(ModeArgs(f)[i]) && ModeArgs(f)[i] != Opt(DstPort)
  {
  }

  lemma KeyNamesNoPeer(f: Form)
    ensures forall i | 0 <= i < |KeyArgs(f)| :: !PeerFlag(KeyArgs(f)[i])
  {
  }

  lemma ServerLayout(f: Form)
    requires f.server && !f.transport.Raw?
    ensures forall i | 0 <= i < |ExecArgs(f)| :: !PeerFlag(ExecArgs(f)[i])
  {
  }

  /** A flag and its value between a head of seven arguments and a tail: where they stand. */
  lemma PeersBetween(head: seq<Arg>, peers: seq<Arg>, tail: seq<Arg>)
    requires |head| == 7 && |peers| == 2 && !PeerFlag(peers[1])
    requires forall i | 0 <= i < |head| :: !PeerFlag(head[i])
    requires forall i | 0 <= i < |tail| :: !PeerFlag(tail[i])
    ensures var args := head + (peers + tail);
            && |args| > 8 && args[7] == peers[0] && args[8] == peers[1]
            && forall i | 0 <= i < |args| && i != 7 :: !PeerFlag(args[i])
  {
  }

  lemma ClientLayout(f: Form)
    requires !f.server && !f.transport.Raw?
    ensures var args := ExecArgs(f);
            && |args| > 8
            && args[7] == (if f.mp then Opt(Remotes) else Opt(Remote))
            && args[8] == Value(if f.mp then Quoted(Join(MultiEndpoints(f), ",")) else Val(f.remote, "SERVER_IP:4443"))
            && (forall i | 0 <= i < |args| && i != 7 :: !PeerFlag(args[i]))
  {
    var two := [Opt(Listen), Value(Val(f.cliListen, "127.0.0.1:9000"))];
    ModeNamesNoPeer(f);
    KeyNamesNoPeer(f);
    Assoc(ModeArgs(f), two, PeerArgs(f) + KeyArgs(f));
    PeersBetween(ModeArgs(f) + two, PeerArgs(f), KeyArgs(f));
  }

  lemma RemotePeers(args: seq<Arg>, value: string)
    requires AllPrintable(args) && |args| > 8 && args[8] == Value(value)
    requires args[7] == Opt(Remote) || args[7] == Opt(Remotes)
    requires forall i | 0 <= i < |args| && i != 7 :: !PeerFlag(args[i])
    ensures Flatten(Contributions(PrintAll(args))) == if args[7] == Opt(Remote) then [Trim(Quote, value)]
                                                 else Trimmed(GoSpace, Split(Trim(Quote, value), ','))
  {
    OnePeerFlag(args, 7);
    PrintedFlag(args, 7);
  }

  /** The command line names exactly the configured peers. */
  lemma CommandLineRoundTrip(f: Form)
    requires Clean(f)
    ensures PeersOf(BuildExec(f)) == Configured(f)
  {
    PeersSay(f);
    PrintedTokens(f);
    if f.transport.Raw? {
      RawLayout(f);
      RawPeers(ExecArgs(f), RawDstIp(f), RawDstPort(f));
    } else if f.server {
      ServerLayout(f);
      OnePeerFlag(ExecArgs(f), |ExecArgs(f)|);
    } else {
      ClientRoundTrip(f);
    }
  }

  lemma ClientRoundTrip(f: Form)
    requires Clean(f) && !f.server && !f.transport.Raw?
    ensures Flatten(Contributions(PrintAll(ExecArgs(f)))) == Configured(f)
  {
    PeersSay(f);
    ClientLayout(f);
    if f.mp {
      RemotePeers(ExecArgs(f), Quoted(Join(MultiEndpoints(f), ",")));
      EndpointsSurvive(MultiEndpoints(f));
    } else {
      RemotePeers(ExecArgs(f), Val(f.remote, "SERVER_IP:4443"));
      TrimOfBare(Quote, Val(f.remote, "SERVER_IP:4443"));
    }
  }

  /** A list of endpoints, joined by commas and quoted, is read back unchanged. */
  lemma EndpointsSurvive(eps: seq<string>)
    requires eps != [] && forall i | 0 <= i < |eps| :: Endpoint(eps[i])
    ensures Trim(Quote, Quoted(Join(eps, ","))) == Join(eps, ",")
    ensures Trimmed(GoSpace, Split(Join(eps, ","), ',')) == eps
  {
    JoinEnds(eps, ",");
    TrimOfQuoted(Join(eps, ","));
    EndpointsSplit(eps);
  }

  lemma EndpointsSplit(eps: seq<string>)
    requires eps != [] && forall i | 0 <= i < |eps| :: Endpoint(eps[i])
    ensures Trimmed(GoSpace, Split(Join(eps, ","), ',')) == eps
  {
    assert "," == [','];
    SplitOfJoin(eps, ',');
    TrimmedOfBare(GoSpace, eps);
  }

  lemma {:induction false} JoinEnds(words: seq<string>, sep: string)
    requires words != [] && forall i | 0 <= i < |words| :: words[i] != ""
    ensures var s := Join(words, sep);
            s != "" && s[0] == words[0][0] && s[|s| - 1] == words[|words| - 1][|words[|words| - 1]| - 1]
  {
    if |words| > 1 {
      JoinEnds(words[1..], sep);
      var tail := Join(words[1..], sep);
      var s := Join(words, sep);
      assert s == words[0] + sep + tail;
      assert s[|s| - 1] == tail[|tail| - 1];
    }
  }

  // The unit file -----------------------------------------------------------------------------------------

  predicate NotExecLine(s: string) { s == "" || (Bare(GoSpace, s) && s[0] != 'E') }

  lemma {:induction false} SearchSkips(lines: seq<string>, rest: seq<string>)
    requires forall i | 0 <= i < |lines| :: NotExecLine(lines[i])
    ensures ExecLineOf(lines + rest) == ExecLineOf(rest)
  {
    if lines == [] {
      assert lines + rest == rest;
    } else {
      TrimOfBare(GoSpace, lines[0]);
      SearchSkips(lines[1..], rest);
      assert (lines + rest)[1..] == lines[1..] + rest;
    }
  }

  lemma HeadLines()
    ensures forall i | 0 <= i < |HEAD| :: NotExecLine(HEAD[i]) && Without(HEAD[i], '\n')
  {
  }

  lemma FootLines(f: Form)
    ensures forall i | 0 <= i < |Foot(f)| :: Without(Foot(f)[i], '\n')
  {
    assert Without("Restart=always", '\n') && Without("RestartSec=3", '\n') && Without("LimitNOFILE=1048576", '\n');
    assert Without("AmbientCapabilities=CAP_NET_RAW", '\n') && Without(" CAP_NET_ADMIN", '\n');
    assert Without("", '\n') && Without("[Install]", '\n') && Without("WantedBy=multi-user.target", '\n');
  }

  lemma {:induction false} JoinedWords(words: seq<string>)
    requires words != [] && forall i | 0 <= i < |words| :: Word(words[i])
    ensures Without(Join(words, " "), '\n')
    ensures Bare(GoSpace, Join(words, " ")) && Join(words, " ") != ""
  {
    JoinEnds(words, " ");
    if |words| > 1 {
      JoinedWords(words[1..]);
    }
  }

  lemma LineHolds(exec: string)
    requires Without(exec, '\n') && exec != "" && Bare(GoSpace, exec)
    ensures Without(EXEC_START + exec, '\n') && Bare(GoSpace, EXEC_START + exec)
  {
  }

  lemma SearchHits(line: string, foot: seq<string>)
    requires EXEC_START <= line && Bare(GoSpace, line)
    ensures ExecLineOf([line] + foot) == line[|EXEC_START|..]
  {
  }

  lemma UnitLinesSurvive(f: Form)
    requires Clean(f)
    ensures Split(BuildUnit(f), '\n') == UnitLines(f)
    ensures Bare(GoSpace, EXEC_START + BuildExec(f))
  {
    PrintedWords(f);
    JoinedWords(PrintAll(ExecArgs(f)));
    LineHolds(BuildExec(f));
    HeadLines();
    FootLines(f);
    AllWithout(HEAD, EXEC_START + BuildExec(f), Foot(f), '\n');
    SplitOfJoin(UnitLines(f), '\n');
  }

  lemma AllWithout(head: seq<string>, line: string, foot: seq<string>, c: char)
    requires forall i | 0 <= i < |head| :: Without(head[i], c)
    requires Without(line, c)
    requires forall i | 0 <= i < |foot| :: Without(foot[i], c)
    ensures forall i | 0 <= i < |head + ([line] + foot)| :: Without((head + ([line] + foot))[i], c)
  {
  }

  /** The ExecStart line of the unit holds the whole command line. */
  lemma ExecLineFound(f: Form)
    requires Clean(f)
    ensures ExecLineOf(Split(BuildUnit(f), '\n')) == BuildExec(f)
  {
    UnitLinesSurvive(f);
    HeadLines();
    SearchSkips(HEAD, [EXEC_START + BuildExec(f)] + Foot(f));
    SearchHits(EXEC_START + BuildExec(f), Foot(f));
    LineTail(BuildExec(f));
  }

  lemma LineTail(exec: string)
    ensures EXEC_START <= EXEC_START + exec && (EXEC_START + exec)[|EXEC_START|..] == exec
  {
  }

  /** Unit round trip: for every clean form, searching the printed unit for its ExecStart line and parsing that
      line gives exactly the configured peers, in order. */
  lemma UnitRoundTrip(f: Form)
    requires Clean(f)
    ensures PeersOf(ExecLineOf(Split(BuildUnit(f), '\n'))) == Configured(f)
  {
    ExecLineFound(f);
    CommandLineRoundTrip(f);
  }

  const CAPABILITIES := "AmbientCapabilities=CAP_NET_RAW" + " CAP_NET_ADMIN"

  lemma OtherLines(f: Form)
    requires !f.transport.Raw?
    ensures forall i | 0 <= i < |HEAD| :: |HEAD[i]| < 40
    ensures forall i | 0 <= i < |Foot(f)| :: |Foot(f)[i]| < 40
    ensures |CAPABILITIES| > 40 && CAPABILITIES[0] == 'A' && EXEC_START[0] == 'E'
  {
  }

  /** The unit asks for the raw-socket capabilities exactly if the transport is raw. */
  lemma RawGetsCapabilities(f: Form)
    requires Clean(f)
    ensures CAPABILITIES in Split(BuildUnit(f), '\n') <==> f.transport.Raw?
  {
    UnitLinesSurvive(f);
    var foot := Foot(f);
    var rest := [EXEC_START + BuildExec(f)] + foot;
    if f.transport.Raw? {
      assert foot[3] == CAPABILITIES;
      assert UnitLines(f)[|HEAD| + 4] == CAPABILITIES;
    } else {
      OtherLines(f);
      assert (EXEC_START + BuildExec(f))[0] == 'E';
      assert UnitLines(f) == HEAD + rest;
    }
  }
}
