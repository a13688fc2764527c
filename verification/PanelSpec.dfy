/** What the panel's form stands for, in terms of what is typed into its fields, and what main makes of a command line.
    Nothing here is taken from the printer. */
module PanelSpec {
  import opened Text
  import opened Panel

  predicate Blank(field: string) { AllOf(JsSpace, field) }

  /** What a field says: the text typed, less the white space around it, or the placeholder if none is. */
  function Says(field: string, placeholder: string): string {
    if Blank(field) then placeholder else Trim(JsSpace, field)
  }

  /** The non-blank lines of a field. */
  function SaysLines(field: string): seq<string> { Trimmed(JsSpace, Split(Trim(JsSpace, field), '\n')) }

  /** The servers of the multi-server field. */
  function Servers(f: Form): (servers: seq<string>)
    ensures servers != []
  {
    if SaysLines(f.remotes) == [] then ["IP_1:4443", "IP_2:4443"] else SaysLines(f.remotes)
  }

  function PeerIp(f: Form): string { Says(f.dstip, if f.server then "FOREIGN_IP" else "IRAN_IP") }
  function PeerPort(f: Form): string { Says(f.dstport, if f.server then "42001" else "42000") }

  /** The peers the form configures. */
  function Configured(f: Form): seq<string> {
    if f.transport == Raw then [PeerIp(f) + ":" + PeerPort(f)]
    else if f.server then []
    else if f.mp then Servers(f)
    else [Says(f.remote, "SERVER_IP:4443")]
  }

  function KeySays(f: Form): string { "\"" + Says(f.key, "YOUR_LONG_SECRET") + "\"" }

  /** The flags the form configures, each with its value as the unit spells it. */
  function Settings(f: Form): map<string, string> {
    var m := map["-mode" := if f.server then "server" else "client",
                 "-transport" := match f.transport case Tls => "tls" case Udp => "udp" case Raw => "raw"];
    if f.transport == Raw then RawSettings(f, m)
    else if f.server then ServerSettings(f, m)
    else ClientSettings(f, m)
  }

  function RawSettings(f: Form, m: map<string, string>): map<string, string> {
    (if f.server then m["-target" := Says(f.target, "127.0.0.1:443")]
     else m["-listen" := Says(f.cliListen, "127.0.0.1:9000")])
      ["-key" := KeySays(f)]["-dstip" := PeerIp(f)]
      ["-srcport" := Says(f.srcport, if f.server then "42000" else "42001")]["-dstport" := PeerPort(f)]
  }

  function ServerSettings(f: Form, m: map<string, string>): map<string, string> {
    var k := m["-listen" := Says(f.srvListen, "0.0.0.0:4443")]["-target" := Says(f.target, "127.0.0.1:443")]
              ["-key" := KeySays(f)];
    if f.transport == Tls then k["-sni" := Says(f.sni, "www.cloudflare.com")] else k
  }

  function ClientSettings(f: Form, m: map<string, string>): map<string, string> {
    var l := m["-listen" := Says(f.cliListen, "127.0.0.1:9000")];
    var r := if f.mp then l["-remotes" := "\"" + Join(Servers(f), ",") + "\""]
             else l["-remote" := Says(f.remote, "SERVER_IP:4443")];
    var k := r["-key" := KeySays(f)];
    if f.transport == Udp then k
    else
      var s := k["-sni" := Says(f.sni, "www.cloudflare.com")];
      if f.dpi then s["-utls" := "true"]["-frag" := "64"] else s
  }

  /** The program's flags that take no value. */
  predicate Switch(name: string) { name == "-utls" || name == "-ws-tls" || name == "-no-auto-iptables" }

  /** flag.Parse on words that are separate: a switch stands alone, every other flag is followed by its value, a later
      one overrides an earlier one, and the first word that is no flag ends it. */
  function SetFlags(m: map<string, string>, words: seq<string>): map<string, string>
    decreases |words|
  {
    if words == [] || words[0] == "" || words[0][0] != '-' then m
    else if Switch(words[0]) then SetFlags(m[words[0] := "true"], words[1..])
    else if |words| == 1 then m
    else SetFlags(m[words[0] := words[1]], words[2..])
  }

  /** The printer's reading of a field is what the field says. */
  lemma ValSays(field: string, placeholder: string)
    ensures Val(field, placeholder) == Says(field, placeholder)
  {
    var front, back := TrimIsBare(JsSpace, field);
    var t := Trim(JsSpace, field);
    if t != "" {
      assert field[|front|] == t[0] && !JsSpace(t[0]);
    }
  }

  lemma LinesSay(f: Form)
    ensures MultiEndpoints(f) == Servers(f)
  {
    var t := Trim(JsSpace, f.remotes);
    assert Val(f.remotes, "") == t;
    SplitRunsIsSplit(t);
  }

  lemma PeersSay(f: Form)
    ensures RawDstIp(f) == PeerIp(f) && RawDstPort(f) == PeerPort(f)
    ensures Val(f.remote, "SERVER_IP:4443") == Says(f.remote, "SERVER_IP:4443")
    ensures MultiEndpoints(f) == Servers(f)
  {
    ValSays(f.dstip, if f.server then "FOREIGN_IP" else "IRAN_IP");
    ValSays(f.dstport, if f.server then "42001" else "42000");
    ValSays(f.remote, "SERVER_IP:4443");
    LinesSay(f);
  }
}
