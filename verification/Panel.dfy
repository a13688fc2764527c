/** The panel's printer and reader of the tunnel's service unit. The printer is buildExec/buildUnit of
    t2tunnel/webpanel/panel.html; the readers are handlePeer and parsePeers of t2tunnel/webpanel/panel.go, and
    the -remotes splitting of main in t2tunnel/engine.go. */
module Panel {
  import opened Bytes
  import opened Text

  datatype Transport = Tls | Udp | Raw

  /** The form, each field as typed. */
  datatype Form = Form(
    server: bool, transport: Transport, mp: bool, dpi: bool,
    key: string, sni: string, srvListen: string, target: string, cliListen: string,
    remote: string, remotes: string, dstip: string, srcport: string, dstport: string)

  /** val(id, fb) */
  function Val(field: string, fallback: string): string {
    if Trim(JsSpace, field) == "" then fallback else Trim(JsSpace, field)
  }

  // The printer -------------------------------------------------------------------------------------------

  datatype Flag =
    | Mode | TransportFlag | Listen | Target | Key | Sni | DstIp | SrcPort | DstPort | Remote | Remotes | Utls | Frag

  function Name(f: Flag): string {
    match f
    case Mode => "-mode"
    case TransportFlag => "-transport"
    case Listen => "-listen"
    case Target => "-target"
    case Key => "-key"
    case Sni => "-sni"
    case DstIp => "-dstip"
    case SrcPort => "-srcport"
    case DstPort => "-dstport"
    case Remote => "-remote"
    case Remotes => "-remotes"
    case Utls => "-utls"
    case Frag => "-frag"
  }

  /** An element of buildExec's array p: one of the flags it pushes, or a value. */
  datatype Arg = Opt(flag: Flag) | Value(text: string)

  function Print(a: Arg): string { if a.Opt? then Name(a.flag) else a.text }

  function PrintAll(args: seq<Arg>): (words: seq<string>)
    ensures |words| == |args|
  {
    seq(|args|, i requires 0 <= i < |args| => Print(args[i]))
  }

  function TransportName(t: Transport): string {
    match t
    case Tls => "tls"
    case Udp => "udp"
    case Raw => "raw"
  }

  function Quoted(s: string): string { "\"" + s + "\"" }

  /** The endpoints of the multi-server field, or the two placeholders. */
  function MultiEndpoints(f: Form): (eps: seq<string>)
    ensures eps != []
  {
    var lines := Trimmed(JsSpace, SplitRuns(Val(f.remotes, "")));
    if lines == [] then ["IP_1:4443", "IP_2:4443"] else lines
  }

  function KeyText(f: Form): string { Val(f.key, "YOUR_LONG_SECRET") }

  function RawDstIp(f: Form): string { Val(f.dstip, if f.server then "FOREIGN_IP" else "IRAN_IP") }
  function RawSrcPort(f: Form): string { Val(f.srcport, if f.server then "42000" else "42001") }
  function RawDstPort(f: Form): string { Val(f.dstport, if f.server then "42001" else "42000") }

  function RawArgs(f: Form): seq<Arg> {
    [Opt(Key), Value(Quoted(KeyText(f))), Opt(DstIp), Value(RawDstIp(f)),
     Opt(SrcPort), Value(RawSrcPort(f)), Opt(DstPort), Value(RawDstPort(f))]
  }

  function ServerArgs(f: Form): seq<Arg> {
    var target := Value(Val(f.target, "127.0.0.1:443"));
    if f.transport.Raw? then [Opt(Target), target] + RawArgs(f)
    else
      [Opt(Listen), Value(Val(f.srvListen, "0.0.0.0:4443")), Opt(Target), target, Opt(Key), Value(Quoted(KeyText(f)))]
      + if f.transport.Tls? then [Opt(Sni), Value(Val(f.sni, "www.cloudflare.com"))] else []
  }

  function PeerArgs(f: Form): (args: seq<Arg>)
    ensures |args| == 2
  {
    if f.mp then [Opt(Remotes), Value(Quoted(Join(MultiEndpoints(f), ",")))]
    else [Opt(Remote), Value(Val(f.remote, "SERVER_IP:4443"))]
  }

  /** What follows the peers on a client's command line. */
  function KeyArgs(f: Form): seq<Arg> {
    [Opt(Key), Value(Quoted(KeyText(f)))]
    + if f.transport.Tls?
      then [Opt(Sni), Value(Val(f.sni, "www.cloudflare.com"))] + if f.dpi then [Opt(Utls), Opt(Frag), Value("64")] else []
      else []
  }

  function ClientArgs(f: Form): seq<Arg> {
    [Opt(Listen), Value(Val(f.cliListen, "127.0.0.1:9000"))]
    + if f.transport.Raw? then RawArgs(f) else PeerArgs(f) + KeyArgs(f)
  }

  /** What every command line starts with. */
  function ModeArgs(f: Form): (args: seq<Arg>)
    ensures |args| == 5
  {
    [Value("/usr/local/bin/t2tunnel"), Opt(Mode), Value(if f.server then "server" else "client"),
     Opt(TransportFlag), Value(TransportName(f.transport))]
  }

  function ExecArgs(f: Form): seq<Arg> { ModeArgs(f) + if f.server then ServerArgs(f) else ClientArgs(f) }

  function BuildExec(f: Form): string { Join(PrintAll(ExecArgs(f)), " ") }

  const HEAD := ["[Unit]", "Description=T2HASH Tunnel", "After=network-online.target",
                 "Wants=network-online.target", "", "[Service]", "Type=simple"]

  function Foot(f: Form): seq<string> {
    ["Restart=always", "RestartSec=3", "LimitNOFILE=1048576"]
    + (if f.transport.Raw? then ["AmbientCapabilities=CAP_NET_RAW" + " CAP_NET_ADMIN"] else [])
    + ["", "[Install]", "WantedBy=multi-user.target"]
  }

  function UnitLines(f: Form): seq<string> { HEAD + (["ExecStart=" + BuildExec(f)] + Foot(f)) }

  /** The unit's text. */
  function BuildUnit(f: Form): string { Join(UnitLines(f), "\n") }

  // The readers -------------------------------------------------------------------------------------------

  const EXEC_START := "ExecStart="

  /** The line, less the prefix, at which handlePeer's search stops; "" if it never does. */
  function ExecLineOf(lines: seq<string>): string {
    if lines == [] then ""
    else if EXEC_START <= Trim(GoSpace, lines[0]) then Trim(GoSpace, lines[0])[|EXEC_START|..]
    else ExecLineOf(lines[1..])
  }

  /** The search stops at the first line that starts, white space aside, with ExecStart=. */
  lemma {:induction false} FirstExecLine(lines: seq<string>, k: nat)
    requires k <= |lines| && forall i | 0 <= i < k :: !("ExecStart=" <= Trim(GoSpace, lines[i]))
    ensures k == |lines| ==> ExecLineOf(lines) == ""
    ensures k < |lines| && "ExecStart=" <= Trim(GoSpace, lines[k]) ==>
              "ExecStart=" + ExecLineOf(lines) == Trim(GoSpace, lines[k])
  {
    if k > 0 {
      FirstExecLine(lines[1..], k - 1);
    }
  }

  /** The value after the last -dstport, not counting one that ends the line. */
  function LastPort(tok: seq<string>, n: nat): string
    requires n < |tok| || n == 0
  {
    if n == 0 then "" else if tok[n - 1] == "-dstport" then tok[n] else LastPort(tok, n - 1)
  }

  /** The peers token i contributes. */
  function PeersAt(tok: seq<string>, i: nat): seq<string>
    requires i < |tok|
  {
    if i + 1 >= |tok| then []
    else if tok[i] == "-remote" then [Trim(Quote, tok[i + 1])]
    else if tok[i] == "-remotes" then Trimmed(GoSpace, Split(Trim(Quote, tok[i + 1]), ','))
    else if tok[i] == "-dstip" then
      var port := LastPort(tok, |tok| - 1);
      if port == "" then [] else [Trim(Quote, tok[i + 1]) + ":" + port]
    else []
  }

  function Contributions(tok: seq<string>): (cs: seq<seq<string>>)
    ensures |cs| == |tok|
  {
    seq(|tok|, i requires 0 <= i < |tok| => PeersAt(tok, i))
  }

  function PeersOf(execLine: string): seq<string> { Flatten(Contributions(Fields(execLine))) }

  /** The last -dstport that has a value wins. */
  lemma {:induction false} LastPortWins(tok: seq<string>, n: nat, j: nat)
    requires n < |tok| || n == 0
    requires j <= n && forall i | j <= i < n :: tok[i] != "-dstport"
    ensures j == 0 ==> LastPort(tok, n) == ""
    ensures j > 0 && tok[j - 1] == "-dstport" ==> LastPort(tok, n) == tok[j]
  {
    if j < n {
      LastPortWins(tok, n - 1, j);
    }
  }

  /** What parsePeers makes of one token of any line: the value after -remote without its quotes; the parts of the one
      after -remotes between commas, quotes, white space and empty parts aside; the value after -dstip without
      its quotes with the last -dstport, if there is one; and nothing of any other token, or of the last. */
  lemma TokenReads(tok: seq<string>, i: nat, front: string, v: string, back: string, j: nat)
    requires i < |tok|
    requires i + 1 < |tok| ==> AllOf(Quote, front) && Bare(Quote, v) && AllOf(Quote, back) && tok[i + 1] == front + v + back
    requires j < |tok| && forall k | j <= k < |tok| - 1 :: tok[k] != "-dstport"
    requires j > 0 ==> tok[j - 1] == "-dstport" && tok[j] != ""
    ensures PeersAt(tok, i) ==
            if i + 1 == |tok| then []
            else if tok[i] == "-remote" then [v]
            else if tok[i] == "-remotes" then Trimmed(GoSpace, Split(v, ','))
            else if tok[i] == "-dstip" && j > 0 then [v + ":" + tok[j]]
            else []
  {
    if i + 1 < |tok| {
      TrimOfPadded(Quote, front, v, back);
    }
    LastPortWins(tok, |tok| - 1, j);
  }

  method FindExecLine(data: string) returns (execLine: string)
    ensures execLine == ExecLineOf(Split(data, '\n'))
  {
    execLine := "";
    var lines := Split(data, '\n');
    for i := 0 to |lines|
      invariant ExecLineOf(lines) == ExecLineOf(lines[i..]) && execLine == ""
    {
      var ln := Trim(GoSpace, lines[i]);
      if EXEC_START <= ln {
        execLine := ln[|EXEC_START|..];
        break;
      }
    }
  }

  /** parsePeers, case "-remotes". */
  method AppendRemotes(out: seq<string>, value: string) returns (out': seq<string>)
    ensures out' == out + Trimmed(GoSpace, Split(Trim(Quote, value), ','))
  {
    out' := out;
    var parts := Split(Trim(Quote, value), ',');
    for j := 0 to |parts|
      invariant out' == out + Trimmed(GoSpace, parts[..j])
    {
      var p := Trim(GoSpace, parts[j]);
      assert parts[..j + 1] == parts[..j] + [parts[j]];
      TrimmedSnoc(GoSpace, parts[..j], parts[j]);
      if p != "" {
        out' := out' + [p];
      }
    }
    assert parts[..|parts|] == parts;
  }

  /** parsePeers, case "-dstip". */
  method AppendRawPeer(out: seq<string>, tok: seq<string>, value: string) returns (out': seq<string>)
    requires tok != []
    ensures var port := LastPort(tok, |tok| - 1);
            out' == out + if port == "" then [] else [Trim(Quote, value) + ":" + port]
  {
    out' := out;
    var ip := Trim(Quote, value);
    var port := "";
    for j := 0 to |tok| - 1
      invariant port == LastPort(tok, j)
    {
      if tok[j] == "-dstport" {
        port := tok[j + 1];
      }
    }
    if port != "" {
      out' := out' + [ip + ":" + port];
    }
  }

  lemma OneMoreToken(tok: seq<string>, i: nat)
    requires i < |tok|
    ensures Flatten(Contributions(tok)[..i + 1]) == Flatten(Contributions(tok)[..i]) + PeersAt(tok, i)
  {
    assert Contributions(tok)[..i + 1] == Contributions(tok)[..i] + [PeersAt(tok, i)];
    FlattenSnoc(Contributions(tok)[..i], PeersAt(tok, i));
  }

  method ParsePeers(execLine: string) returns (out: seq<string>)
    ensures out == PeersOf(execLine)
  {
    var tok := Fields(execLine);
    out := [];
    for i := 0 to |tok|
      invariant out == Flatten(Contributions(tok)[..i])
    {
      OneMoreToken(tok, i);
      if tok[i] == "-remote" {
        if i + 1 < |tok| {
          out := out + [Trim(Quote, tok[i + 1])];
        }
      } else if tok[i] == "-remotes" {
        if i + 1 < |tok| {
          out := AppendRemotes(out, tok[i + 1]);
        }
      } else if tok[i] == "-dstip" {
        if i + 1 < |tok| {
          out := AppendRawPeer(out, tok, tok[i + 1]);
        }
      }
    }
    assert Contributions(tok)[..|tok|] == Contributions(tok);
  }

  /** The server list main makes of -remotes. */
  method SplitRemotes(remotes: string) returns (servers: seq<string>)
    ensures servers == Trimmed(GoSpace, Split(remotes, ','))
  {
    var addrs := Split(remotes, ',');
    servers := [];
    for i := 0 to |addrs|
      invariant servers == Trimmed(GoSpace, addrs[..i])
    {
      var a := Trim(GoSpace, addrs[i]);
      assert addrs[..i + 1] == addrs[..i] + [addrs[i]];
      TrimmedSnoc(GoSpace, addrs[..i], addrs[i]);
      if a == "" {
        continue;
      }
      servers := servers + [a];
    }
    assert addrs[..|addrs|] == addrs;
  }
}
