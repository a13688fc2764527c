/** The command line the panel prints, as main reads it: every flag gets the value the form says, and no other flag is
    set. */
module PanelFlags {
  import opened Bytes
  import opened Text
  import opened Panel
  import opened PanelSpec
  import opened PanelRoundTrip

  /** SetFlags on buildExec's array. */
  function Assign(m: map<string, string>, args: seq<Arg>): map<string, string>
    decreases |args|
  {
    if args == [] || args[0].Value? then m
    else if args[0].flag == Utls then Assign(m["-utls" := "true"], args[1..])
    else if |args| == 1 then m
    else Assign(m[Name(args[0].flag) := Print(args[1])], args[2..])
  }

  /** -utls alone, and every other flag with a value. */
  predicate Paired(args: seq<Arg>)
    decreases |args|
  {
    args == []
    || (args[0] == Opt(Utls) && Paired(args[1..]))
    || (args[0].Opt? && args[0] != Opt(Utls) && |args| > 1 && args[1].Value? && Paired(args[2..]))
  }

  lemma SwitchName(fl: Flag)
    ensures Name(fl) != "" && Name(fl)[0] == '-' && (Switch(Name(fl)) <==> fl == Utls)
  {
  }

  lemma {:induction false} AssignPrinted(m: map<string, string>, args: seq<Arg>)
    requires Paired(args)
    ensures SetFlags(m, PrintAll(args)) == Assign(m, args)
    decreases |args|
  {
    if args != [] {
      var words := PrintAll(args);
      SwitchName(args[0].flag);
      if args[0] == Opt(Utls) {
        assert words[1..] == PrintAll(args[1..]);
        AssignPrinted(m["-utls" := "true"], args[1..]);
      } else {
        assert words[2..] == PrintAll(args[2..]);
        AssignPrinted(m[Name(args[0].flag) := Print(args[1])], args[2..]);
      }
    }
  }

  lemma {:induction false} AssignConcat(m: map<string, string>, a: seq<Arg>, b: seq<Arg>)
    requires Paired(a) && Paired(b)
    ensures Paired(a + b) && Assign(m, a + b) == Assign(Assign(m, a), b)
    decreases |a|
  {
    if a == [] {
      assert a + b == b;
    } else if a[0] == Opt(Utls) {
      assert (a + b)[1..] == a[1..] + b;
      AssignConcat(m["-utls" := "true"], a[1..], b);
    } else {
      assert (a + b)[2..] == a[2..] + b;
      AssignConcat(m[Name(a[0].flag) := Print(a[1])], a[2..], b);
    }
  }

  lemma OnePair(m: map<string, string>, fl: Flag, v: string)
    requires fl != Utls
    ensures Paired([Opt(fl), Value(v)]) && Assign(m, [Opt(fl), Value(v)]) == m[Name(fl) := v]
  {
    var args := [Opt(fl), Value(v)];
    assert args[2..] == [];
  }

  /** One more flag and value at the end. */
  lemma PairSnoc(m: map<string, string>, args: seq<Arg>, fl: Flag, v: string)
    requires Paired(args) && fl != Utls
    ensures Paired(args + [Opt(fl), Value(v)])
    ensures Assign(m, args + [Opt(fl), Value(v)]) == Assign(m, args)[Name(fl) := v]
  {
    OnePair(Assign(m, args), fl, v);
    AssignConcat(m, args, [Opt(fl), Value(v)]);
  }

  lemma TwoPairs(m: map<string, string>, a: Flag, v: string, b: Flag, w: string)
    requires a != Utls && b != Utls
    ensures Paired([Opt(a), Value(v), Opt(b), Value(w)])
    ensures Assign(m, [Opt(a), Value(v), Opt(b), Value(w)]) == m[Name(a) := v][Name(b) := w]
  {
    OnePair(m, a, v);
    PairSnoc(m, [Opt(a), Value(v)], b, w);
    assert [Opt(a), Value(v)] + [Opt(b), Value(w)] == [Opt(a), Value(v), Opt(b), Value(w)];
  }

  lemma FourAndFour(a: seq<Arg>, b: seq<Arg>)
    requires |a| == 4 && |b| == 4
    ensures a + b == [a[0], a[1], a[2], a[3], b[0], b[1], b[2], b[3]]
  {
  }

  lemma RawAssign(m: map<string, string>, f: Form)
    ensures Paired(RawArgs(f))
    ensures Assign(m, RawArgs(f)) ==
            m["-key" := Quoted(KeyText(f))]["-dstip" := RawDstIp(f)]["-srcport" := RawSrcPort(f)]["-dstport" := RawDstPort(f)]
  {
    var a := [Opt(Key), Value(Quoted(KeyText(f))), Opt(DstIp), Value(RawDstIp(f))];
    var b := [Opt(SrcPort), Value(RawSrcPort(f)), Opt(DstPort), Value(RawDstPort(f))];
    TwoPairs(m, Key, Quoted(KeyText(f)), DstIp, RawDstIp(f));
    TwoPairs(Assign(m, a), SrcPort, RawSrcPort(f), DstPort, RawDstPort(f));
    AssignConcat(m, a, b);
    FourAndFour(a, b);
  }

  function SniOf(f: Form): string { Val(f.sni, "www.cloudflare.com") }

  lemma SniAssign(m: map<string, string>, f: Form)
    ensures var sni := [Opt(Sni), Value(SniOf(f))];
            && Paired(sni) && Assign(m, sni) == m["-sni" := SniOf(f)]
            && Paired(sni + [Opt(Utls), Opt(Frag), Value("64")])
            && Assign(m, sni + [Opt(Utls), Opt(Frag), Value("64")]) == m["-sni" := SniOf(f)]["-utls" := "true"]["-frag" := "64"]
  {
    var sni, dpi := [Opt(Sni), Value(SniOf(f))], [Opt(Utls), Opt(Frag), Value("64")];
    OnePair(m, Sni, SniOf(f));
    OnePair(m["-sni" := SniOf(f)]["-utls" := "true"], Frag, "64");
    assert dpi[1..] == [Opt(Frag), Value("64")];
    AssignConcat(m, sni, dpi);
  }

  lemma KeyAssign(m: map<string, string>, f: Form)
    ensures Paired(KeyArgs(f))
    ensures Assign(m, KeyArgs(f)) ==
            var k := m["-key" := Quoted(KeyText(f))];
            if !f.transport.Tls? then k
            else if f.dpi then k["-sni" := SniOf(f)]["-utls" := "true"]["-frag" := "64"]
            else k["-sni" := SniOf(f)]
  {
    var key := [Opt(Key), Value(Quoted(KeyText(f)))];
    var tls := if !f.transport.Tls? then []
               else [Opt(Sni), Value(SniOf(f))] + if f.dpi then [Opt(Utls), Opt(Frag), Value("64")] else [];
    OnePair(m, Key, Quoted(KeyText(f)));
    SniAssign(Assign(m, key), f);
    assert [Opt(Sni), Value(SniOf(f))] + [] == [Opt(Sni), Value(SniOf(f))];
    AssignConcat(m, key, tls);
  }

  lemma ServerAssign(m: map<string, string>, f: Form)
    requires !f.transport.Raw?
    ensures Paired(ServerArgs(f))
    ensures Assign(m, ServerArgs(f)) ==
            var k := m["-listen" := Val(f.srvListen, "0.0.0.0:4443")]["-target" := Val(f.target, "127.0.0.1:443")]
                      ["-key" := Quoted(KeyText(f))];
            if f.transport.Tls? then k["-sni" := SniOf(f)] else k
  {
    var a := [Opt(Listen), Value(Val(f.srvListen, "0.0.0.0:4443")), Opt(Target), Value(Val(f.target, "127.0.0.1:443"))];
    var b := a + [Opt(Key), Value(Quoted(KeyText(f)))];
    TwoPairs(m, Listen, Val(f.srvListen, "0.0.0.0:4443"), Target, Val(f.target, "127.0.0.1:443"));
    PairSnoc(m, a, Key, Quoted(KeyText(f)));
    PairSnoc(m, b, Sni, SniOf(f));
    assert b == [Opt(Listen), Value(Val(f.srvListen, "0.0.0.0:4443")), Opt(Target), Value(Val(f.target, "127.0.0.1:443")),
                 Opt(Key), Value(Quoted(KeyText(f)))];
    assert b + [] == b;
  }

  lemma PeerAssign(m: map<string, string>, f: Form)
    ensures Paired(PeerArgs(f))
    ensures Assign(m, PeerArgs(f)) ==
            if f.mp then m["-remotes" := Quoted(Join(MultiEndpoints(f), ","))]
            else m["-remote" := Val(f.remote, "SERVER_IP:4443")]
  {
    if f.mp {
      OnePair(m, Remotes, Quoted(Join(MultiEndpoints(f), ",")));
    } else {
      OnePair(m, Remote, Val(f.remote, "SERVER_IP:4443"));
    }
  }

  lemma ClientAssign(m: map<string, string>, f: Form)
    requires !f.server
    ensures Paired(ClientArgs(f))
    ensures var l := m["-listen" := Val(f.cliListen, "127.0.0.1:9000")];
            Assign(m, ClientArgs(f)) ==
            if f.transport.Raw? then Assign(l, RawArgs(f)) else Assign(Assign(l, PeerArgs(f)), KeyArgs(f))
    ensures f.transport.Raw? ==>
              Assign(m, ClientArgs(f)) ==
              m["-listen" := Val(f.cliListen, "127.0.0.1:9000")]["-key" := Quoted(KeyText(f))]["-dstip" := RawDstIp(f)]
               ["-srcport" := RawSrcPort(f)]["-dstport" := RawDstPort(f)]
  {
    var two := [Opt(Listen), Value(Val(f.cliListen, "127.0.0.1:9000"))];
    var l := m["-listen" := Val(f.cliListen, "127.0.0.1:9000")];
    OnePair(m, Listen, Val(f.cliListen, "127.0.0.1:9000"));
    if f.transport.Raw? {
      RawAssign(l, f);
      AssignConcat(m, two, RawArgs(f));
    } else {
      PeerAssign(l, f);
      KeyAssign(Assign(l, PeerArgs(f)), f);
      AssignConcat(l, PeerArgs(f), KeyArgs(f));
      AssignConcat(m, two, PeerArgs(f) + KeyArgs(f));
    }
  }

  /** The printer reads every field as the form says. */
  lemma FieldsSay(f: Form)
    ensures KeyText(f) == Says(f.key, "YOUR_LONG_SECRET") && SniOf(f) == Says(f.sni, "www.cloudflare.com")
    ensures Val(f.srvListen, "0.0.0.0:4443") == Says(f.srvListen, "0.0.0.0:4443")
    ensures Val(f.cliListen, "127.0.0.1:9000") == Says(f.cliListen, "127.0.0.1:9000")
    ensures Val(f.target, "127.0.0.1:443") == Says(f.target, "127.0.0.1:443")
    ensures RawSrcPort(f) == Says(f.srcport, if f.server then "42000" else "42001")
  {
    ValSays(f.key, "YOUR_LONG_SECRET");
    ValSays(f.sni, "www.cloudflare.com");
    ValSays(f.srvListen, "0.0.0.0:4443");
    ValSays(f.cliListen, "127.0.0.1:9000");
    ValSays(f.target, "127.0.0.1:443");
    ValSays(f.srcport, if f.server then "42000" else "42001");
  }

  /** What the flags common to all command lines set. */
  function Modes(f: Form): map<string, string> {
    map["-mode" := if f.server then "server" else "client", "-transport" := TransportName(f.transport)]
  }

  lemma ModesAssign(f: Form)
    ensures Paired(ModeArgs(f)[1..]) && Assign(map[], ModeArgs(f)[1..]) == Modes(f)
  {
    TwoPairs(map[], Mode, if f.server then "server" else "client", TransportFlag, TransportName(f.transport));
    assert ModeArgs(f)[1..] == [Opt(Mode), Value(if f.server then "server" else "client"),
                                Opt(TransportFlag), Value(TransportName(f.transport))];
  }

  lemma RawSays(f: Form, m: map<string, string>)
    requires f.transport.Raw?
    ensures var rest := if f.server then ServerArgs(f) else ClientArgs(f);
            Paired(rest) && Assign(m, rest) == RawSettings(f, m)
  {
    FieldsSay(f);
    PeersSay(f);
    if f.server {
      var target := [Opt(Target), Value(Val(f.target, "127.0.0.1:443"))];
      OnePair(m, Target, Val(f.target, "127.0.0.1:443"));
      RawAssign(Assign(m, target), f);
      AssignConcat(m, target, RawArgs(f));
    } else {
      ClientAssign(m, f);
    }
  }

  lemma ServerSays(f: Form, m: map<string, string>)
    requires f.server && !f.transport.Raw?
    ensures Paired(ServerArgs(f)) && Assign(m, ServerArgs(f)) == ServerSettings(f, m)
  {
    FieldsSay(f);
    ServerAssign(m, f);
  }

  lemma ClientSays(f: Form, m: map<string, string>)
    requires !f.server && !f.transport.Raw?
    ensures Paired(ClientArgs(f)) && Assign(m, ClientArgs(f)) == ClientSettings(f, m)
  {
    FieldsSay(f);
    PeersSay(f);
    ClientAssign(m, f);
    var l := m["-listen" := Val(f.cliListen, "127.0.0.1:9000")];
    PeerAssign(l, f);
    KeyAssign(Assign(l, PeerArgs(f)), f);
  }

  /** What follows the common flags. */
  lemma RestSays(f: Form)
    ensures var rest := if f.server then ServerArgs(f) else ClientArgs(f);
            Paired(rest) && Assign(Modes(f), rest) == Settings(f)
  {
    if f.transport.Raw? {
      RawSays(f, Modes(f));
    } else if f.server {
      ServerSays(f, Modes(f));
    } else {
      ClientSays(f, Modes(f));
    }
  }

  lemma FrontOff(a: seq<Arg>, b: seq<Arg>)
    requires a != []
    ensures (a + b)[1..] == a[1..] + b
  {
  }

  lemma ArgsSay(f: Form)
    ensures Paired(ExecArgs(f)[1..]) && Assign(map[], ExecArgs(f)[1..]) == Settings(f)
  {
    var rest := if f.server then ServerArgs(f) else ClientArgs(f);
    ModesAssign(f);
    RestSays(f);
    AssignConcat(map[], ModeArgs(f)[1..], rest);
    FrontOff(ModeArgs(f), rest);
  }

  lemma PrintTail(args: seq<Arg>)
    requires args != []
    ensures PrintAll(args)[0] == Print(args[0]) && PrintAll(args)[1..] == PrintAll(args[1..])
  {
  }

  /** The printed command line sets exactly the flags the form configures, each to exactly what the form says. */
  lemma FlagsPrinted(f: Form)
    requires Clean(f)
    ensures var words := Fields(BuildExec(f));
            words != [] && words[0] == "/usr/local/bin/t2tunnel" && SetFlags(map[], words[1..]) == Settings(f)
  {
    PrintedTokens(f);
    ArgsSay(f);
    AssignPrinted(map[], ExecArgs(f)[1..]);
    PrintTail(ExecArgs(f));
  }

  /** The multi-server list: main splits the value of -remotes, less its quotes, into the peers the panel shows;
      both are the servers the form lists, whatever blank lines and spaces surround them. */
  lemma MainAgrees(f: Form)
    requires Clean(f) && !f.server && !f.transport.Raw? && f.mp
    ensures var flags := SetFlags(map[], Fields(BuildExec(f))[1..]);
            && "-remotes" in flags
            && Trimmed(GoSpace, Split(Trim(Quote, flags["-remotes"]), ',')) == PeersOf(BuildExec(f)) == Servers(f)
  {
    CommandLineRoundTrip(f);
    FlagsPrinted(f);
    PeersSay(f);
    EndpointsSurvive(Servers(f));
    assert Settings(f)["-remotes"] == Quoted(Join(Servers(f), ","));
  }
}
