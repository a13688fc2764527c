/** Why the dial rate needs its proviso: a run of the failover client (t2tunnel/multipath.go) in which 2^31 goroutines
    report failures of the only server, its int32 counter goes negative, and the quarantine no longer holds. */
module CounterWrap {
  import opened Bytes
  import opened MultiPath
  import opened MultiPathRuns
  import opened Quarantine

  /** n goroutines that got session 0, of which the first i have reported it. */
  function Holders(n: nat, i: nat): (hs: seq<Holder>)
    ensures |hs| == n
  {
    seq(n, k => Holder(0, 0, k >= i))
  }

  function Times(n: nat, e: Event): (h: seq<Event>)
    ensures |h| == n
  {
    seq(n, _ => e)
  }

  lemma TimesSnoc(n: nat, e: Event)
    ensures Times(n + 1, e) == Times(n, e) + [e]
  {
  }

  const CONNECTED := Dial(0, 0, 0, true)
  const REPORTED := Report(0, 0)
  const FAILED := Dial(0, 0, 0, false)

  /** n goroutines hold the live session 0. */
  function Held(n: nat): World {
    World(Client([Server(0, Never)], 0, Just(0), Just(0), [Sess(0, false)]), 0, Holders(n, 0), [CONNECTED])
  }

  /** The client after that many failures at time 0. */
  function Failing(fails: nat): Client {
    Client([Server(Int32(fails), At(0))], 0, Nothing, Just(0), [Sess(0, true)])
  }

  /** i of them have reported a failure. */
  function Reported(n: nat, i: nat): World {
    World(Failing(i), 0, Holders(n, i), [CONNECTED] + Times(i, REPORTED))
  }

  /** All have, and m dials have failed since. */
  function Dialled(n: nat, m: nat): World {
    World(Failing(n + m), 0, Holders(n, n), [CONNECTED] + Times(n, REPORTED) + Times(m, FAILED))
  }

  lemma HeldStep(n: nat)
    requires n > 0
    ensures Enabled(Held(n), Get([Visit(0, Connects, 0)], 0))
    ensures Apply(Held(n), Get([Visit(0, Connects, 0)], 0)) == Held(n + 1)
  {
    assert Holders(n, 0) + [Holder(0, 0, true)] == Holders(n + 1, 0);
    assert [CONNECTED] + [] == [CONNECTED];
  }

  lemma {:induction false} HeldRun(n: nat) returns (worlds: seq<World>, steps: seq<Step>)
    requires n > 0
    ensures Run(1, worlds, steps) && worlds[|steps|] == Held(n)
  {
    var get := Get([Visit(0, Connects, 0)], 0);
    var w;
    if n == 1 {
      worlds, steps := [Init(1)], [];
      ConnectToOnlyServer(Init(1), [Visit(0, Connects, 0)]);
      assert [Holder(0, 0, true)] == Holders(1, 0);
    } else {
      worlds, steps := HeldRun(n - 1);
      HeldStep(n - 1);
    }
    w := Extend(1, worlds, steps, get);
    worlds, steps := worlds + [w], steps + [get];
  }

  lemma FirstReport(n: nat)
    requires n > 0
    ensures Enabled(Held(n), ReportFailure(0, 0))
    ensures Apply(Held(n), ReportFailure(0, 0)) == Reported(n, 1)
  {
    Int32Successor(0);
    assert Holders(n, 0)[0 := Holder(0, 0, false)] == Holders(n, 1);
    TimesSnoc(0, REPORTED);
    assert [CONNECTED] + [REPORTED] == [CONNECTED] + Times(1, REPORTED);
  }

  lemma NextReport(n: nat, i: nat)
    requires 0 < i < n
    ensures Enabled(Reported(n, i), ReportFailure(i, 0))
    ensures Apply(Reported(n, i), ReportFailure(i, 0)) == Reported(n, i + 1)
  {
    Int32Successor(i);
    assert Holders(n, i)[i := Holder(0, 0, false)] == Holders(n, i + 1);
    TimesSnoc(i, REPORTED);
    Assoc([CONNECTED], Times(i, REPORTED), [REPORTED]);
  }

  lemma {:induction false} ReportedRun(n: nat, i: nat) returns (worlds: seq<World>, steps: seq<Step>)
    requires 0 < i <= n
    ensures Run(1, worlds, steps) && worlds[|steps|] == Reported(n, i)
  {
    var st := ReportFailure(i - 1, 0);
    var w;
    if i == 1 {
      worlds, steps := HeldRun(n);
      FirstReport(n);
    } else {
      worlds, steps := ReportedRun(n, i - 1);
      NextReport(n, i - 1);
    }
    w := Extend(1, worlds, steps, st);
    worlds, steps := worlds + [w], steps + [st];
  }

  /** One more dial, at the very same time, while the counter reads less than 3. */
  lemma NextDial(n: nat, m: nat)
    requires Int32(n + m) < 3
    ensures Enabled(Dialled(n, m), Get([Visit(0, DialFails, 0)], 0))
    ensures Apply(Dialled(n, m), Get([Visit(0, DialFails, 0)], 0)) == Dialled(n, m + 1)
  {
    var c, visits := Failing(n + m), [Visit(0, DialFails, 0)];
    assert !Usable(c, visits, 0) && FirstUsable(c, visits, 0) == 1;
    Int32Successor(n + m);
    assert AfterTurns(c, visits, 1) == Failing(n + m + 1).servers;
    assert DialEvents(c, visits, 0) == [] && DialEvents(c, visits, 1) == [FAILED];
    TimesSnoc(m, FAILED);
    Assoc([CONNECTED] + Times(n, REPORTED), Times(m, FAILED), [FAILED]);
  }

  lemma {:induction false} DialledRun(n: nat, m: nat) returns (worlds: seq<World>, steps: seq<Step>)
    requires n == 0x8000_0000 && m <= n + 3
    ensures Run(1, worlds, steps) && worlds[|steps|] == Dialled(n, m)
    decreases m
  {
    if m == 0 {
      worlds, steps := ReportedRun(n, n);
      assert [CONNECTED] + Times(n, REPORTED) + Times(0, FAILED) == [CONNECTED] + Times(n, REPORTED);
    } else {
      worlds, steps := DialledRun(n, m - 1);
      NegativeCount(m - 1);
      NextDial(n, m - 1);
      var w := Extend(1, worlds, steps, Get([Visit(0, DialFails, 0)], 0));
      worlds, steps := worlds + [w], steps + [Get([Visit(0, DialFails, 0)], 0)];
    }
  }

  lemma NegativeCount(m: nat)
    requires m < 0x8000_0003
    ensures Int32(0x8000_0000 + m) < 3
  {
  }

  lemma {:induction false} DialsInTimes(m: nat)
    ensures DialsTo(Times(m, FAILED), 0) == m
  {
    if m > 0 {
      TimesSnoc(m - 1, FAILED);
      assert Times(m, FAILED)[..m - 1] == Times(m - 1, FAILED);
      DialsInTimes(m - 1);
    }
  }

  /** The dial rate fails at a wrapped counter: for any m up to 2^31 + 3 there is a run that ends in m dials of one
      server, all of them failing, in no time at all. */
  lemma WrappedCounterDialsFreely(m: nat) returns (worlds: seq<World>, steps: seq<Step>, a: nat)
    requires m <= 0x8000_0003
    ensures Run(1, worlds, steps) && a <= |worlds[|steps|].history|
    ensures var stretch := worlds[|steps|].history[a..];
            Window(stretch, 0, 0, 0) && DialsTo(stretch, 0) == m
  {
    worlds, steps := DialledRun(0x8000_0000, m);
    a := 0x8000_0001;
    assert worlds[|steps|].history[a..] == Times(m, FAILED);
    DialsInTimes(m);
  }
}
