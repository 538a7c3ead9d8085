/** The boot script under arbitrary command outcomes: `set -e` makes it stop in front of the
    tunnel, and reaching the end means that the tunnel is there. */
module BootSafety {
  import opened Text
  import opened Topology
  import opened BootScript

  // ----- set -e

  /** The commands the script runs without a guard. */
  predicate Unguarded(c: Command) {
    c.SetUp? || c.AddWireGuard? || c.SetConf? || (c.AddAddr? && c.dev.Named?)
  }

  /** Unguarded commands stand alone, all others behind a guard. */
  predicate Disciplined1(s: Stmt)
    decreases s
  {
    match s
    case Must(c) => Unguarded(c)
    case OrTrue(c) => !Unguarded(c)
    case IfFails(c, body) => !Unguarded(c) && Disciplined(body)
    case _ => true
  }

  predicate Disciplined(stmts: seq<Stmt>)
    decreases stmts
  {
    forall i :: 0 <= i < |stmts| ==> Disciplined1(stmts[i])
  }

  predicate UnguardedPassed(log: seq<Event>) {
    forall i :: 0 <= i < |log| ==> Unguarded(log[i].c) ==> log[i].ok
  }

  /** The log of a script that runs on: no unguarded command failed. The log of one that ended:
      the last command is the first unguarded one that failed. */
  ghost predicate FailsClosed(sh: Shell) {
    sh.m.Free?
    && if !sh.halted then UnguardedPassed(sh.m.log)
       else
         var n := |sh.m.log|;
         n > 0 && Unguarded(sh.m.log[n - 1].c) && !sh.m.log[n - 1].ok && UnguardedPassed(sh.m.log[..n - 1])
  }

  lemma DoLogs(sh: Shell, c: Command)
    requires sh.m.Free? && UnguardedPassed(sh.m.log)
    ensures var r := Do(sh.m, c, sh.iface);
            r.m.Free? && r.m.log == sh.m.log + [Event(c, r.ok)] && r.m.log[..|r.m.log| - 1] == sh.m.log
            && (!Unguarded(c) || r.ok ==> UnguardedPassed(r.m.log))
  {
  }

  lemma {:induction false} OneFailsClosed(s: Stmt, sh: Shell)
    requires FailsClosed(sh) && !sh.halted && Disciplined1(s)
    ensures FailsClosed(ExecOne(s, sh))
    decreases s
  {
    match s
    case Must(c) => DoLogs(sh, c);
    case OrTrue(c) => DoLogs(sh, c);
    case IfFails(c, body) =>
      DoLogs(sh, c);
      ExecFailsClosed(body, sh.(m := Do(sh.m, c, sh.iface).m));
    case SetIface(_) =>
    case PickEthernet =>
  }

  lemma {:induction false} ExecFailsClosed(stmts: seq<Stmt>, sh: Shell)
    requires FailsClosed(sh) && Disciplined(stmts)
    ensures FailsClosed(Exec(stmts, sh))
    decreases stmts
  {
    if stmts != [] && !sh.halted {
      OneFailsClosed(stmts[0], sh);
      ExecFailsClosed(stmts[1..], ExecOne(stmts[0], sh));
    }
  }

  lemma {:induction false} EnslaveAllDisciplined(slaves: seq<string>, master: string)
    ensures Disciplined(EnslaveAll(slaves, master))
  {
    if slaves != [] {
      EnslaveAllDisciplined(slaves[1..], master);
    }
  }

  lemma InterfacePartDisciplined(d: ScriptData)
    ensures Disciplined(InterfacePart(d))
  {
    EnslaveAllDisciplined(Fields(d.bondSlaves), d.vlanPhysdev);
    EnslaveAllDisciplined(Fields(d.bondSlaves), d.iface);
  }

  lemma ProgramDisciplined(d: ScriptData)
    ensures Disciplined(Program(d))
  {
    InterfacePartDisciplined(d);
    assert Disciplined(RouteBody(d));
    assert Disciplined(AddressPart(d));
    assert Disciplined(TunnelPart(d));
  }

  // ----- nothing in front of the last part makes wg0

  predicate MakesNoTunnel1(s: Stmt)
    decreases s
  {
    match s
    case Must(c) => !c.AddWireGuard?
    case OrTrue(c) => !c.AddWireGuard?
    case IfFails(c, body) => !c.AddWireGuard? && MakesNoTunnel(body)
    case _ => true
  }

  predicate MakesNoTunnel(stmts: seq<Stmt>)
    decreases stmts
  {
    forall i :: 0 <= i < |stmts| ==> MakesNoTunnel1(stmts[i])
  }

  predicate NoTunnelIn(m: Machine) {
    m.Free? && forall i :: 0 <= i < |m.log| ==> !m.log[i].c.AddWireGuard?
  }

  lemma {:induction false} OneMakesNoTunnel(s: Stmt, sh: Shell)
    requires NoTunnelIn(sh.m) && MakesNoTunnel1(s)
    ensures NoTunnelIn(ExecOne(s, sh).m)
    decreases s
  {
    if s.IfFails? {
      ExecMakesNoTunnel(s.body, sh.(m := Do(sh.m, s.c, sh.iface).m));
    }
  }

  lemma {:induction false} ExecMakesNoTunnel(stmts: seq<Stmt>, sh: Shell)
    requires NoTunnelIn(sh.m) && MakesNoTunnel(stmts)
    ensures NoTunnelIn(Exec(stmts, sh).m)
    decreases stmts
  {
    if stmts != [] && !sh.halted {
      OneMakesNoTunnel(stmts[0], sh);
      ExecMakesNoTunnel(stmts[1..], ExecOne(stmts[0], sh));
    }
  }

  lemma {:induction false} EnslaveAllMakesNoTunnel(slaves: seq<string>, master: string)
    ensures MakesNoTunnel(EnslaveAll(slaves, master))
  {
    if slaves != [] {
      EnslaveAllMakesNoTunnel(slaves[1..], master);
    }
  }

  lemma InterfacePartMakesNoTunnel(d: ScriptData)
    ensures MakesNoTunnel(InterfacePart(d))
  {
    EnslaveAllMakesNoTunnel(Fields(d.bondSlaves), d.vlanPhysdev);
    EnslaveAllMakesNoTunnel(Fields(d.bondSlaves), d.iface);
  }

  // ----- the last part

  /** The four steps that make the tunnel, in their order. */
  function TunnelSteps(d: ScriptData): seq<Event> {
    [Event(AddWireGuard("wg0"), true), Event(AddAddr(d.serverIp, Named("wg0")), true),
     Event(SetConf("wg0"), true), Event(SetUp(Named("wg0")), true)]
  }

  /** wg0 was created and later brought up. */
  ghost predicate TunnelUp(log: seq<Event>) {
    exists i, j ::
      0 <= i < j < |log| && log[i] == Event(AddWireGuard("wg0"), true) && log[j] == Event(SetUp(Named("wg0")), true)
  }

  ghost predicate EndsWith(log: seq<Event>, last: seq<Event>) {
    |last| <= |log| && log[|log| - |last|..] == last
  }

  lemma MustStep(sh: Shell, c: Command, log: seq<Event>, done: seq<Event>)
    requires sh.m.Free? && !sh.halted && sh.m.log == log + done
    ensures var r := Then(sh, Must(c));
            r.m.Free? && r.m.log == log + (done + [Event(c, !r.halted)])
  {
    ConcatAssoc(log, done, [Event(c, !Then(sh, Must(c)).halted)]);
  }

  lemma NotUp(log: seq<Event>, done: seq<Event>)
    requires forall i :: 0 <= i < |log| ==> !log[i].c.AddWireGuard?
    requires forall j :: 1 <= j < |done| ==> done[j] != Event(SetUp(Named("wg0")), true)
    ensures !TunnelUp(log + done)
  {
    var l := log + done;
    assert forall i :: 0 <= i < |log| ==> l[i] == log[i];
    forall i, j | 0 <= i < j < |l| && l[i] == Event(AddWireGuard("wg0"), true)
      ensures l[j] != Event(SetUp(Named("wg0")), true)
    {
      assert l[j] == done[j - |log|];
    }
  }

  /** A row of unguarded commands: the log of each prefix that passed, and the one that failed. */
  lemma FourSteps(sh: Shell, a: Command, b: Command, c: Command, d: Command) returns (done: seq<Event>)
    requires sh.m.Free? && !sh.halted
    ensures var r := Then(Then(Then(Then(sh, Must(a)), Must(b)), Must(c)), Must(d));
            && r.m.Free? && r.m.log == sh.m.log + done
            && (!r.halted ==> done == [Event(a, true), Event(b, true), Event(c, true), Event(d, true)])
            && (r.halted ==> 0 < |done| <= 4 && !done[|done| - 1].ok)
            && (r.halted && |done| > 1 ==> done[1].c == b)
            && (r.halted && |done| > 2 ==> done[2].c == c)
            && (r.halted && |done| > 3 ==> done[3] == Event(d, false))
  {
    var log := sh.m.log;
    done := [];
    var r := sh;
    assert log == log + done;
    MustStep(r, a, log, done);
    r, done := Then(r, Must(a)), done + [Event(a, !Then(r, Must(a)).halted)];
    if r.halted { return; }
    MustStep(r, b, log, done);
    r, done := Then(r, Must(b)), done + [Event(b, !Then(r, Must(b)).halted)];
    if r.halted { return; }
    MustStep(r, c, log, done);
    r, done := Then(r, Must(c)), done + [Event(c, !Then(r, Must(c)).halted)];
    if r.halted { return; }
    MustStep(r, d, log, done);
    r, done := Then(r, Must(d)), done + [Event(d, !Then(r, Must(d)).halted)];
  }

  lemma TunnelPartRuns(d: ScriptData, sh: Shell)
    requires NoTunnelIn(sh.m) && !sh.halted
    ensures var r := Exec(TunnelPart(d), sh);
            r.m.Free? && (if r.halted then !TunnelUp(r.m.log) else EndsWith(r.m.log, TunnelSteps(d)))
  {
    var add, addr, conf, up :=
      AddWireGuard("wg0"), AddAddr(d.serverIp, Named("wg0")), SetConf("wg0"), SetUp(Named("wg0"));
    ExecSix(OrTrue(Modprobe("wireguard")), OrTrue(DelLink("wg0")), Must(add), Must(addr), Must(conf), Must(up), sh);
    var s2 := Then(Then(sh, OrTrue(Modprobe("wireguard"))), OrTrue(DelLink("wg0")));
    assert NoTunnelIn(s2.m) && !s2.halted;
    var done := FourSteps(s2, add, addr, conf, up);
    var r := Exec(TunnelPart(d), sh);
    if r.halted {
      NotUp(s2.m.log, done);
    } else {
      assert r.m.log[|s2.m.log|..] == done;
    }
  }

  // ----- the whole script

  /** Under arbitrary outcomes: a script that reaches its end has, as its last four commands,
      created, addressed, configured and brought up wg0, in that order; and it does not reach
      its end exactly when an unguarded command failed, which is then the last command run and
      leaves wg0 down. */
  lemma ReachingTheEnd(d: ScriptData, outcomes: nat -> bool, ethernets: seq<string>)
    ensures var r := Exec(Program(d), Start(Free(outcomes, ethernets, [])));
            FailsClosed(r)
            && if r.halted then !TunnelUp(r.m.log) else EndsWith(r.m.log, TunnelSteps(d))
  {
    var s0 := Start(Free(outcomes, ethernets, []));
    ProgramDisciplined(d);
    ExecFailsClosed(Program(d), s0);
    InterfacePartMakesNoTunnel(d);
    ExecMakesNoTunnel(InterfacePart(d), s0);
    var s1 := Exec(InterfacePart(d), s0);
    assert MakesNoTunnel(RouteBody(d));
    assert MakesNoTunnel(AddressPart(d));
    ExecMakesNoTunnel(AddressPart(d), s1);
    var s2 := Exec(AddressPart(d), s1);
    ExecProgram(d, s0);
    if !s2.halted {
      TunnelPartRuns(d, s2);
    }
  }
}
