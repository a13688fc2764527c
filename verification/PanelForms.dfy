/** Which forms are clean, in terms of what is typed into the fields: blank fields take their fallbacks, and
    anything without white space and quotes that does not start with a dash will do. */
module PanelForms {
  import opened Text
  import opened Panel
  import opened PanelSpec
  import opened PanelRoundTrip
  import opened PanelFlags

  /** Free of white space and quotes, and not starting with '-'. */
  predicate Plain(s: string) { Printable(s) && Without(s, '"') }

  predicate PlainField(field: string) { Blank(field) || Plain(Trim(JsSpace, field)) }

  /** The fields as typed; only those the chosen mode prints matter. */
  predicate TypedWell(f: Form) {
    && (Blank(f.key) || Word(Trim(JsSpace, f.key)))
    && (f.server ==> PlainField(f.target))
    && (!f.server ==> PlainField(f.cliListen))
    && (f.transport.Raw? ==> PlainField(f.dstip) && PlainField(f.srcport) && PlainField(f.dstport))
    && (f.transport.Tls? ==> PlainField(f.sni))
    && (f.server && !f.transport.Raw? ==> PlainField(f.srvListen))
    && (!f.server && !f.transport.Raw? && !f.mp ==> PlainField(f.remote))
    && (!f.server && !f.transport.Raw? && f.mp ==>
          forall i | 0 <= i < |SaysLines(f.remotes)| ::
            Plain(SaysLines(f.remotes)[i]) && Without(SaysLines(f.remotes)[i], ','))
  }

  lemma PlainIsBare(s: string)
    requires Plain(s)
    ensures Bare(Quote, s)
  {
  }

  lemma QuotedIsPrintable(s: string)
    requires Word(s)
    ensures Printable(Quoted(s))
  {
  }

  lemma PlainListeners()
    ensures Plain("127.0.0.1:443") && Plain("0.0.0.0:4443") && Plain("127.0.0.1:9000")
  {
  }

  lemma PlainRemote()
    ensures Plain("SERVER_IP:4443")
  {
  }

  lemma PlainEndpoints()
    ensures Plain("IP_1:4443") && Without("IP_1:4443", ',')
    ensures Plain("IP_2:4443") && Without("IP_2:4443", ',')
  {
  }

  lemma PlainRaw()
    ensures Plain("FOREIGN_IP") && Plain("IRAN_IP") && Plain("42000") && Plain("42001")
  {
  }

  lemma PlainModes()
    ensures Plain("server") && Plain("client") && Plain("tls") && Plain("udp") && Plain("raw") && Plain("64")
  {
  }

  lemma PlainSni()
    ensures Plain("www.cloudflare.com")
  {
  }

  lemma PlainBinary()
    ensures Plain("/usr/local/bin/t2tunnel")
  {
  }

  lemma PlainKey()
    ensures Word("YOUR_LONG_SECRET")
  {
  }

  lemma PlainVal(field: string, fallback: string)
    requires PlainField(field) && Plain(fallback)
    ensures Plain(Val(field, fallback)) && Bare(Quote, Val(field, fallback))
  {
    ValSays(field, fallback);
  }

  lemma KeyPrintable(f: Form)
    requires TypedWell(f)
    ensures Printable(Quoted(KeyText(f)))
  {
    PlainKey();
    ValSays(f.key, "YOUR_LONG_SECRET");
    QuotedIsPrintable(KeyText(f));
  }

  lemma RawArgsPrintable(f: Form)
    requires TypedWell(f) && f.transport.Raw?
    ensures AllPrintable(RawArgs(f)) && Bare(Quote, RawDstIp(f))
  {
    KeyPrintable(f);
    PlainRaw();
    PlainVal(f.dstip, if f.server then "FOREIGN_IP" else "IRAN_IP");
    PlainVal(f.srcport, if f.server then "42000" else "42001");
    PlainVal(f.dstport, if f.server then "42001" else "42000");
  }

  lemma SniPrintable(f: Form)
    requires TypedWell(f) && f.transport.Tls?
    ensures Printable(Val(f.sni, "www.cloudflare.com")) && Printable("64")
  {
    PlainModes();
    PlainSni();
    PlainVal(f.sni, "www.cloudflare.com");
  }

  lemma ServerArgsPrintable(f: Form)
    requires TypedWell(f) && f.server
    ensures AllPrintable(ServerArgs(f))
  {
    PlainListeners();
    PlainVal(f.target, "127.0.0.1:443");
    KeyPrintable(f);
    if f.transport.Raw? {
      RawArgsPrintable(f);
    } else {
      PlainVal(f.srvListen, "0.0.0.0:4443");
      if f.transport.Tls? {
        SniPrintable(f);
      }
    }
  }

  lemma EndpointsWell(f: Form)
    requires TypedWell(f) && !f.server && !f.transport.Raw? && f.mp
    ensures forall i | 0 <= i < |MultiEndpoints(f)| :: Endpoint(MultiEndpoints(f)[i])
    ensures Printable(Quoted(Join(MultiEndpoints(f), ",")))
  {
    PlainEndpoints();
    LinesSay(f);
    forall i | 0 <= i < |MultiEndpoints(f)|
      ensures Endpoint(MultiEndpoints(f)[i])
    {
      PlainIsBare(MultiEndpoints(f)[i]);
    }
    JoinedIsWord(MultiEndpoints(f));
    QuotedIsPrintable(Join(MultiEndpoints(f), ","));
  }

  lemma {:induction false} JoinedIsWord(words: seq<string>)
    requires words != [] && forall i | 0 <= i < |words| :: Word(words[i])
    ensures Word(Join(words, ","))
  {
    if |words| > 1 {
      JoinedIsWord(words[1..]);
    }
  }

  lemma PeerArgPrintable(f: Form)
    requires TypedWell(f) && !f.server && !f.transport.Raw?
    ensures AllPrintable(PeerArgs(f))
    ensures !f.mp ==> Bare(Quote, Val(f.remote, "SERVER_IP:4443"))
  {
    PlainRemote();
    if f.mp {
      EndpointsWell(f);
    } else {
      PlainVal(f.remote, "SERVER_IP:4443");
    }
  }

  lemma ClientArgsPrintable(f: Form)
    requires TypedWell(f) && !f.server
    ensures AllPrintable(ClientArgs(f))
  {
    PlainListeners();
    PlainVal(f.cliListen, "127.0.0.1:9000");
    KeyPrintable(f);
    if f.transport.Raw? {
      RawArgsPrintable(f);
    } else {
      PeerArgPrintable(f);
      if f.transport.Tls? {
        SniPrintable(f);
      }
    }
  }

  /** Every form typed well is clean. */
  lemma TypedWellIsClean(f: Form)
    requires TypedWell(f)
    ensures Clean(f)
  {
    PlainModes();
    PlainBinary();
    if f.server {
      ServerArgsPrintable(f);
    } else {
      ClientArgsPrintable(f);
    }
    if f.transport.Raw? {
      RawArgsPrintable(f);
    } else if !f.server {
      PeerArgPrintable(f);
      if f.mp {
        EndpointsWell(f);
      }
    }
  }

  /** The unit printed from any form typed well names the peers the form configures, and starts the program with the
      flags the form configures. */
  lemma UnitSays(f: Form)
    requires TypedWell(f)
    ensures var execLine := ExecLineOf(Split(BuildUnit(f), '\n'));
            && PeersOf(execLine) == Configured(f)
            && Fields(execLine) != [] && Fields(execLine)[0] == "/usr/local/bin/t2tunnel"
            && SetFlags(map[], Fields(execLine)[1..]) == Settings(f)
  {
    TypedWellIsClean(f);
    UnitRoundTrip(f);
    ExecLineFound(f);
    FlagsPrinted(f);
  }
}
