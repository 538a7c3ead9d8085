/** The unlock protocol (contrib/rootless/rootless.go): connections, sessions and commands as a
    trace of events, one method per function of the source, and a monitor for the traces. */
module Unlock {
  import opened Text

  datatype Remote = CryptrootUnlock | LuksChangeKey

  /** The WireGuard tunnel to Dropbear, or the ordinary network to the running system. */
  datatype Network = Tunnel | Direct

  datatype Event =
    | Dialed(conn: nat, over: Network)
    | Opened(conn: nat)                  // an SSH session on the connection
    | Started(conn: nat, cmd: Remote)
    | Ended(conn: nat, ok: bool)
    | Answered(line: string)             // the user's answer to "unlock and boot now?"
    | Closed(conn: nat)
    | DeviceUp | DeviceDown | DeviceClosed

  /** What becomes of runPTY: no session, a session without PTY or command, or a command that ran. */
  datatype Pty = NoSession | NoPty | NoStart | Ran(ok: bool)

  /** Everything the run depends on. */
  datatype Outcomes = Outcomes(
    addrParses: bool, tunnelUp: bool,
    dial: bool, first: Pty, answer: string, redial: bool, second: Pty,
    directDial: bool, direct: Pty)

  function Confirmed(answer: string): bool {
    var a := Trim(answer);
    a == "" || a == "y" || a == "Y"
  }

  // ----- the traces

  function PtyTrace(c: nat, cmd: Remote, p: Pty): seq<Event> {
    match p
    case NoSession => []
    case NoPty | NoStart => [Opened(c), Ended(c, false)]
    case Ran(ok) => [Opened(c), Started(c, cmd), Ended(c, ok)]
  }

  function ChangeKeyTrace(c: nat, p: Pty, answer: string): seq<Event> {
    PtyTrace(c, LuksChangeKey, p) + (if p == Ran(true) then [Answered(answer)] else [])
  }

  function ChangeAndUnlockTrace(c: nat, o: Outcomes): seq<Event> {
    ChangeKeyTrace(c, o.first, o.answer) + [Closed(c)]
    + (if o.first == Ran(true) && Confirmed(o.answer) && o.redial
       then [Dialed(c + 1, Tunnel)] + PtyTrace(c + 1, CryptrootUnlock, o.second) + [Closed(c + 1)] else [])
  }

  function PerformTrace(c: nat, changeKey: bool, o: Outcomes): seq<Event> {
    if !o.dial then []
    else
      [Dialed(c, Tunnel)]
      + (if changeKey then ChangeAndUnlockTrace(c, o) else PtyTrace(c, CryptrootUnlock, o.first))
      + [Closed(c)]
  }

  function DirectTrace(c: nat, o: Outcomes): seq<Event> {
    if !o.directDial then [] else [Dialed(c, Direct)] + PtyTrace(c, LuksChangeKey, o.direct) + [Closed(c)]
  }

  /** From the moment the WireGuard device is up. */
  function UnlockTrace(c: nat, changeKey: bool, o: Outcomes): seq<Event> {
    [DeviceUp]
    + (if !o.addrParses then []
       else if o.tunnelUp then PerformTrace(c, changeKey, o)
       else if changeKey then DirectTrace(c, o)
       else [])
    + [DeviceDown, DeviceClosed]
  }

  // ----- the program

  lemma Enclosed(before: seq<Event>, first: Event, body: seq<Event>, down: Event, closed: Event)
    ensures before + [first] + body + [down] + [closed] == before + ([first] + body + [down, closed])
    ensures before + [first] + [] == before + [first]
  {
  }

  class World {
    var trace: seq<Event>
    var nextConn: nat

    method Emit(e: Event)
      modifies `trace
      ensures trace == old(trace) + [e]
    {
      trace := trace + [e];
    }

    method Dial(over: Network, ok: bool) returns (conn: Option<nat>)
      modifies this
      ensures ok ==> conn == Some(old(nextConn)) && nextConn == old(nextConn) + 1
      ensures ok ==> trace == old(trace) + [Dialed(old(nextConn), over)]
      ensures !ok ==> conn == None && nextConn == old(nextConn) && trace == old(trace)
    {
      if !ok {
        return None;
      }
      conn := Some(nextConn);
      Emit(Dialed(nextConn, over));
      nextConn := nextConn + 1;
    }

    /** runPTY: the session is closed on every way out. */
    method RunPty(conn: nat, cmd: Remote, p: Pty) returns (ok: bool)
      modifies `trace
      ensures trace == old(trace) + PtyTrace(conn, cmd, p) && ok == (p == Ran(true))
    {
      if p == NoSession {
        return false;
      }
      Emit(Opened(conn));
      if p == NoPty || p == NoStart {
        Emit(Ended(conn, false));
        return false;
      }
      Emit(Started(conn, cmd));
      Emit(Ended(conn, p.ok));
      return p.ok;
    }

    method RunUnlock(conn: nat, p: Pty) returns (ok: bool)
      modifies `trace
      ensures trace == old(trace) + PtyTrace(conn, CryptrootUnlock, p) && ok == (p == Ran(true))
    {
      ok := RunPty(conn, CryptrootUnlock, p);
    }

    method RunChangeKey(conn: nat, p: Pty, answer: string) returns (proceed: bool, ok: bool)
      modifies `trace
      ensures trace == old(trace) + ChangeKeyTrace(conn, p, answer)
      ensures ok == (p == Ran(true)) && proceed == (ok && Confirmed(answer))
    {
      ok := RunPty(conn, LuksChangeKey, p);
      if !ok {
        return false, false;
      }
      Emit(Answered(answer));
      return Confirmed(answer), true;
    }

    /** The first connection is closed before the second is dialled. */
    method HandleChangeAndUnlock(conn: nat, o: Outcomes) returns (ok: bool)
      requires nextConn == conn + 1
      modifies this
      ensures trace == old(trace) + ChangeAndUnlockTrace(conn, o)
      ensures ok == (o.first == Ran(true) && (Confirmed(o.answer) ==> o.redial && o.second == Ran(true)))
    {
      var proceed, changed := RunChangeKey(conn, o.first, o.answer);
      Emit(Closed(conn));
      if !changed {
        return false;
      }
      if !proceed {
        return true;
      }
      var again := Dial(Tunnel, o.redial);
      if again == None {
        return false;
      }
      ok := RunUnlock(again.value, o.second);
      Emit(Closed(again.value));
    }

    method PerformUnlock(changeKey: bool, o: Outcomes) returns (ok: bool)
      modifies this
      ensures trace == old(trace) + PerformTrace(old(nextConn), changeKey, o)
      ensures ok == (o.dial && o.first == Ran(true)
                     && (changeKey && Confirmed(o.answer) ==> o.redial && o.second == Ran(true)))
    {
      ghost var before := trace;
      var conn := Dial(Tunnel, o.dial);
      if conn == None {
        return false;
      }
      ghost var c := conn.value;
      if changeKey {
        ok := HandleChangeAndUnlock(conn.value, o);
      } else {
        ok := RunUnlock(conn.value, o.first);
      }
      Emit(Closed(conn.value));
      ConcatTail(before, [Dialed(c, Tunnel)],
        if changeKey then ChangeAndUnlockTrace(c, o) else PtyTrace(c, CryptrootUnlock, o.first), [Closed(c)]);
    }

    /** Without the tunnel only a key change is possible, on the running system. */
    method HandleTunnelFailure(changeKey: bool, o: Outcomes) returns (ok: bool)
      modifies this
      ensures trace == old(trace) + (if changeKey then DirectTrace(old(nextConn), o) else [])
      ensures ok == (changeKey && o.directDial && o.direct == Ran(true))
    {
      if !changeKey {
        return false;
      }
      var conn := Dial(Direct, o.directDial);
      if conn == None {
        return false;
      }
      ok := RunPty(conn.value, LuksChangeKey, o.direct);
      Emit(Closed(conn.value));
    }

    /** Unlock, once the device is set up. */
    method RunAll(changeKey: bool, o: Outcomes) returns (ok: bool)
      modifies this
      ensures trace == old(trace) + UnlockTrace(old(nextConn), changeKey, o)
      ensures ok == (o.addrParses
                     && if o.tunnelUp then
                          o.dial && o.first == Ran(true)
                          && (changeKey && Confirmed(o.answer) ==> o.redial && o.second == Ran(true))
                        else changeKey && o.directDial && o.direct == Ran(true))
    {
      ghost var before, c := trace, nextConn;
      Emit(DeviceUp);
      if !o.addrParses {
        ok := false;
      } else if !o.tunnelUp {
        ok := HandleTunnelFailure(changeKey, o);
      } else {
        ok := PerformUnlock(changeKey, o);
      }
      Emit(DeviceDown);
      Emit(DeviceClosed);
      ghost var body := if !o.addrParses then []
        else if o.tunnelUp then PerformTrace(c, changeKey, o)
        else if changeKey then DirectTrace(c, o)
        else [];
      Enclosed(before, DeviceUp, body, DeviceDown, DeviceClosed);
    }
  }

  // ----- the protocol

  datatype Device = Absent | Up | Down | Gone

  /** What the monitor remembers: the device, the open connection, whether a session was opened on
      it and is still open, the command that runs, and how far a key change got. */
  datatype Monitor = Monitor(
    device: Device, conn: Option<nat>, over: Network, used: bool, session: bool, running: Option<Remote>, changed: bool,
        confirmed: bool)

  const FRESH := Monitor(Absent, None, Direct, false, false, None, false, false)

  /** The rules. One connection at a time and one session on each; a command only in a session;
      cryptroot-unlock only through the tunnel, in a plain unlock or after a change that succeeded
      and was confirmed; a connection is closed when its session has ended; the device goes down
      last. */
  function Step(m: Monitor, plain: bool, e: Event): Option<Monitor> {
    match e
    case Dialed(c, over) =>
      if m.device == Up && m.conn == None then Some(m.(conn := Some(c), over := over, used := false)) else None
    case Opened(c) => if m.conn == Some(c) && !m.used then Some(m.(used := true, session := true)) else None
    case Started(c, cmd) =>
      if m.conn == Some(c) && m.session && m.running == None
         && (cmd == CryptrootUnlock ==> m.over == Tunnel && (plain || (m.changed && m.confirmed)))
         && (cmd == LuksChangeKey ==> !plain)
      then Some(m.(running := Some(cmd))) else None
    case Ended(c, ok) =>
      if m.conn == Some(c) && m.session
      then Some(m.(session := false, running := None,
                   changed := m.changed || (ok && m.running == Some(LuksChangeKey)))) else None
    case Answered(line) =>
      if m.changed then Some(m.(confirmed := Trim(line) == "" || Trim(line) == "y" || Trim(line) == "Y")) else None
    case Closed(c) =>
      if m.session then None else if m.conn == Some(c) then Some(m.(conn := None)) else Some(m)
    case DeviceUp => if m.device == Absent then Some(m.(device := Up)) else None
    case DeviceDown => if m.device == Up && m.conn == None then Some(m.(device := Down)) else None
    case DeviceClosed => if m.device == Down then Some(m.(device := Gone)) else None
  }

  function Check(m: Option<Monitor>, plain: bool, trace: seq<Event>): Option<Monitor>
    decreases |trace|
  {
    if m == None || trace == [] then m else Check(Step(m.value, plain, trace[0]), plain, trace[1..])
  }

  lemma {:induction false} CheckConcat(m: Option<Monitor>, plain: bool, a: seq<Event>, b: seq<Event>)
    ensures Check(m, plain, a + b) == Check(Check(m, plain, a), plain, b)
    decreases |a|
  {
    if a == [] {
      assert a + b == b;
    } else if m.Some? {
      assert (a + b)[1..] == a[1..] + b;
      CheckConcat(Step(m.value, plain, a[0]), plain, a[1..], b);
    }
  }

  lemma CheckOne(m: Monitor, plain: bool, e: Event)
    ensures Check(Some(m), plain, [e]) == Step(m, plain, e)
  {
    assert [e][1..] == [];
  }

  lemma CheckTwo(m: Monitor, plain: bool, a: Event, b: Event)
    ensures Check(Some(m), plain, [a, b]) == Check(Step(m, plain, a), plain, [b])
  {
    assert [a, b][1..] == [b];
  }

  lemma CheckThree(m: Monitor, plain: bool, a: Event, b: Event, c: Event)
    ensures Check(Some(m), plain, [a, b, c]) == Check(Step(m, plain, a), plain, [b, c])
  {
    assert [a, b, c][1..] == [b, c];
  }

  /** A session on a fresh connection. */
  lemma {:induction false} SessionChecks(m: Monitor, plain: bool, c: nat, cmd: Remote, p: Pty)
    requires m.conn == Some(c) && !m.used && !m.session && m.running == None
    requires if cmd == CryptrootUnlock then m.over == Tunnel && (plain || (m.changed && m.confirmed)) else !plain
    ensures Check(Some(m), plain, PtyTrace(c, cmd, p)) ==
            Some(m.(used := p != NoSession, changed := m.changed || (cmd == LuksChangeKey && p == Ran(true))))
  {
    match p
    case NoSession =>
    case NoPty | NoStart =>
      CheckTwo(m, plain, Opened(c), Ended(c, false));
      CheckOne(m.(used := true, session := true), plain, Ended(c, false));
    case Ran(ok) =>
      CheckThree(m, plain, Opened(c), Started(c, cmd), Ended(c, ok));
      var m1 := m.(used := true, session := true);
      CheckTwo(m1, plain, Started(c, cmd), Ended(c, ok));
      CheckOne(m1.(running := Some(cmd)), plain, Ended(c, ok));
  }

  /** No connection is open and no session is left over. */
  predicate Idle(m: Monitor) {
    m.device == Up && m.conn == None && !m.session && m.running == None
  }

  /** Dial, one session, close. */
  lemma {:induction false} ConnectionChecks(m: Monitor, plain: bool, c: nat, over: Network, cmd: Remote, p: Pty)
    requires Idle(m)
    requires if cmd == CryptrootUnlock then over == Tunnel && (plain || (m.changed && m.confirmed)) else !plain
    ensures var r := Check(Some(m), plain, [Dialed(c, over)] + PtyTrace(c, cmd, p) + [Closed(c)]);
            r.Some? && Idle(r.value)
  {
    CheckConcat(Some(m), plain, [Dialed(c, over)] + PtyTrace(c, cmd, p), [Closed(c)]);
    CheckConcat(Some(m), plain, [Dialed(c, over)], PtyTrace(c, cmd, p));
    CheckOne(m, plain, Dialed(c, over));
    var m1 := m.(conn := Some(c), over := over, used := false);
    SessionChecks(m1, plain, c, cmd, p);
    CheckOne(m1.(used := p != NoSession, changed := m1.changed || (cmd == LuksChangeKey && p == Ran(true))),
             plain, Closed(c));
  }

  lemma {:induction false} ChangeKeyChecks(m: Monitor, c: nat, p: Pty, answer: string)
    requires m.conn == Some(c) && !m.used && !m.session && m.running == None
    requires !m.changed && !m.confirmed && m.device == Up
    ensures var r := Check(Some(m), false, ChangeKeyTrace(c, p, answer) + [Closed(c)]);
            r.Some? && Idle(r.value) && (p == Ran(true) ==> r.value.changed && r.value.confirmed == Confirmed(answer))
  {
    SessionChecks(m, false, c, LuksChangeKey, p);
    var m1 := m.(used := p != NoSession, changed := p == Ran(true));
    var tail := if p == Ran(true) then [Answered(answer)] else [];
    CheckConcat(Some(m), false, PtyTrace(c, LuksChangeKey, p), tail);
    CheckConcat(Some(m), false, ChangeKeyTrace(c, p, answer), [Closed(c)]);
    CheckOne(m1, false, Answered(answer));
    var m2 := if p == Ran(true) then m1.(confirmed := Confirmed(answer)) else m1;
    assert Check(Some(m), false, ChangeKeyTrace(c, p, answer)) == Some(m2);
    CheckOne(m2, false, Closed(c));
  }

  lemma {:induction false} PerformChecks(m: Monitor, c: nat, changeKey: bool, o: Outcomes)
    requires Idle(m) && !m.changed && !m.confirmed
    ensures var r := Check(Some(m), !changeKey, PerformTrace(c, changeKey, o));
            r.Some? && Idle(r.value)
  {
    if !o.dial {
    } else if !changeKey {
      ConnectionChecks(m, true, c, Tunnel, CryptrootUnlock, o.first);
    } else {
      var unlock := if o.first == Ran(true) && Confirmed(o.answer) && o.redial
        then [Dialed(c + 1, Tunnel)] + PtyTrace(c + 1, CryptrootUnlock, o.second) + [Closed(c + 1)] else [];
      var change := ChangeKeyTrace(c, o.first, o.answer) + [Closed(c)];
      CheckOne(m, false, Dialed(c, Tunnel));
      var m1 := m.(conn := Some(c), over := Tunnel, used := false);
      ChangeKeyChecks(m1, c, o.first, o.answer);
      var m2 := Check(Some(m1), false, change).value;
      if unlock != [] {
        ConnectionChecks(m2, false, c + 1, Tunnel, CryptrootUnlock, o.second);
      }
      var m3 := Check(Some(m2), false, unlock).value;
      CheckOne(m3, false, Closed(c));
      CheckConcat(Some(m1), false, change, unlock);
      CheckConcat(Some(m), false, [Dialed(c, Tunnel)], change + unlock);
      CheckConcat(Some(m), false, [Dialed(c, Tunnel)] + (change + unlock), [Closed(c)]);
      assert ChangeAndUnlockTrace(c, o) == change + unlock;
    }
  }

  /** In every outcome the run keeps to the protocol and ends with all connections closed and the
      device gone. */
  lemma {:induction false} EveryRunChecks(c: nat, changeKey: bool, o: Outcomes)
    ensures var r := Check(Some(FRESH), !changeKey, UnlockTrace(c, changeKey, o));
            r.Some? && r.value.conn == None && !r.value.session && r.value.device == Gone
  {
    var plain := !changeKey;
    var body := if !o.addrParses then []
      else if o.tunnelUp then PerformTrace(c, changeKey, o)
      else if changeKey then DirectTrace(c, o)
      else [];
    CheckOne(FRESH, plain, DeviceUp);
    var m1 := FRESH.(device := Up);
    if o.addrParses && o.tunnelUp {
      PerformChecks(m1, c, changeKey, o);
    } else if o.addrParses && changeKey && o.directDial {
      ConnectionChecks(m1, false, c, Direct, LuksChangeKey, o.direct);
    }
    var m2 := Check(Some(m1), plain, body).value;
    CheckTwo(m2, plain, DeviceDown, DeviceClosed);
    CheckOne(m2.(device := Down), plain, DeviceClosed);
    CheckConcat(Some(FRESH), plain, [DeviceUp], body);
    CheckConcat(Some(FRESH), plain, [DeviceUp] + body, [DeviceDown, DeviceClosed]);
  }

  // ----- when the disk is unlocked

  predicate Starts(trace: seq<Event>, cmd: Remote) {
    exists i :: 0 <= i < |trace| && trace[i].Started? && trace[i].cmd == cmd
  }

  lemma StartsConcat(a: seq<Event>, b: seq<Event>, cmd: Remote)
    ensures Starts(a + b, cmd) <==> Starts(a, cmd) || Starts(b, cmd)
  {
    var t := a + b;
    assert forall i :: 0 <= i < |a| ==> t[i] == a[i];
    assert forall i :: 0 <= i < |b| ==> t[|a| + i] == b[i];
    assert forall i :: |a| <= i < |t| ==> t[i] == b[i - |a|];
  }

  lemma PtyStarts(c: nat, ran: Remote, p: Pty, cmd: Remote)
    ensures Starts(PtyTrace(c, ran, p), cmd) <==> p.Ran? && ran == cmd
  {
    if p.Ran? {
      assert PtyTrace(c, ran, p)[1] == Started(c, ran);
    }
  }

  lemma ConnectionStarts(c: nat, over: Network, ran: Remote, p: Pty, cmd: Remote)
    ensures Starts([Dialed(c, over)] + PtyTrace(c, ran, p) + [Closed(c)], cmd) <==> p.Ran? && ran == cmd
  {
    PtyStarts(c, ran, p, cmd);
    StartsConcat([Dialed(c, over)] + PtyTrace(c, ran, p), [Closed(c)], cmd);
    StartsConcat([Dialed(c, over)], PtyTrace(c, ran, p), cmd);
  }

  /** What is started between device up and device down. */
  lemma BodyStarts(c: nat, changeKey: bool, o: Outcomes, body: seq<Event>, cmd: Remote)
    requires UnlockTrace(c, changeKey, o) == [DeviceUp] + body + [DeviceDown, DeviceClosed]
    ensures Starts(UnlockTrace(c, changeKey, o), cmd) <==> Starts(body, cmd)
  {
    StartsConcat([DeviceUp] + body, [DeviceDown, DeviceClosed], cmd);
    StartsConcat([DeviceUp], body, cmd);
  }

  lemma PerformStarts(c: nat, changeKey: bool, o: Outcomes, cmd: Remote)
    ensures Starts(PerformTrace(c, changeKey, o), cmd) <==>
            o.dial
            && if !changeKey then o.first.Ran? && cmd == CryptrootUnlock
               else if cmd == LuksChangeKey then o.first.Ran?
               else o.first == Ran(true) && Confirmed(o.answer) && o.redial && o.second.Ran?
  {
    if changeKey {
      ChangeStarts(c, o, cmd);
    } else {
      ConnectionStarts(c, Tunnel, CryptrootUnlock, o.first, cmd);
    }
  }

  lemma ChangeStarts(c: nat, o: Outcomes, cmd: Remote)
    ensures Starts([Dialed(c, Tunnel)] + ChangeAndUnlockTrace(c, o) + [Closed(c)], cmd) <==>
            if cmd == LuksChangeKey then o.first.Ran?
            else o.first == Ran(true) && Confirmed(o.answer) && o.redial && o.second.Ran?
  {
    var unlock := if o.first == Ran(true) && Confirmed(o.answer) && o.redial
      then [Dialed(c + 1, Tunnel)] + PtyTrace(c + 1, CryptrootUnlock, o.second) + [Closed(c + 1)] else [];
    var change := ChangeKeyTrace(c, o.first, o.answer);
    StartsConcat([Dialed(c, Tunnel)] + ChangeAndUnlockTrace(c, o), [Closed(c)], cmd);
    StartsConcat([Dialed(c, Tunnel)], ChangeAndUnlockTrace(c, o), cmd);
    StartsConcat(change + [Closed(c)], unlock, cmd);
    StartsConcat(change, [Closed(c)], cmd);
    PtyStarts(c, LuksChangeKey, o.first, cmd);
    StartsConcat(PtyTrace(c, LuksChangeKey, o.first), if o.first == Ran(true) then [Answered(o.answer)] else [], cmd);
    ConnectionStarts(c + 1, Tunnel, CryptrootUnlock, o.second, cmd);
  }

  /** cryptroot-unlock starts exactly when the tunnel is up, Dropbear is reached and, after a
      requested key change, that change succeeded, was confirmed and Dropbear is reached again. */
  lemma UnlockStarts(c: nat, changeKey: bool, o: Outcomes)
    ensures Starts(UnlockTrace(c, changeKey, o), CryptrootUnlock) <==>
            o.addrParses && o.tunnelUp && o.dial
            && if changeKey then
                 o.first == Ran(true) && o.redial && o.second.Ran?
                 && (Trim(o.answer) == "" || Trim(o.answer) == "y" || Trim(o.answer) == "Y")
               else o.first.Ran?
  {
    UnlockBody(c, changeKey, o, CryptrootUnlock);
  }

  /** The key change starts exactly when it is asked for and Dropbear is reached through the
      tunnel or, when that is not up, the running system directly. */
  lemma KeyChangeStarts(c: nat, changeKey: bool, o: Outcomes)
    ensures Starts(UnlockTrace(c, changeKey, o), LuksChangeKey) <==>
            changeKey && o.addrParses
            && if o.tunnelUp then o.dial && o.first.Ran? else o.directDial && o.direct.Ran?
  {
    UnlockBody(c, changeKey, o, LuksChangeKey);
  }

  lemma UnlockBody(c: nat, changeKey: bool, o: Outcomes, cmd: Remote)
    ensures Starts(UnlockTrace(c, changeKey, o), cmd) <==>
            o.addrParses
            && if o.tunnelUp then Starts(PerformTrace(c, changeKey, o), cmd)
               else changeKey && o.directDial && o.direct.Ran? && cmd == LuksChangeKey
    ensures Starts(PerformTrace(c, changeKey, o), cmd) <==>
            o.dial
            && if !changeKey then o.first.Ran? && cmd == CryptrootUnlock
               else if cmd == LuksChangeKey then o.first.Ran?
               else o.first == Ran(true) && Confirmed(o.answer) && o.redial && o.second.Ran?
  {
    var body := if !o.addrParses then []
      else if o.tunnelUp then PerformTrace(c, changeKey, o)
      else if changeKey then DirectTrace(c, o)
      else [];
    BodyStarts(c, changeKey, o, body, cmd);
    PerformStarts(c, changeKey, o, cmd);
    ConnectionStarts(c, Direct, LuksChangeKey, o.direct, cmd);
  }

  // ----- where the connections go

  ghost predicate AllOver(trace: seq<Event>, over: Network) {
    forall i :: 0 <= i < |trace| && trace[i].Dialed? ==> trace[i].over == over
  }

  lemma AllOverConcat(a: seq<Event>, b: seq<Event>, over: Network)
    ensures AllOver(a, over) && AllOver(b, over) ==> AllOver(a + b, over)
  {
  }

  lemma ConnectionOver(c: nat, over: Network, cmd: Remote, p: Pty)
    ensures AllOver([Dialed(c, over)] + PtyTrace(c, cmd, p) + [Closed(c)], over)
  {
    AllOverConcat([Dialed(c, over)] + PtyTrace(c, cmd, p), [Closed(c)], over);
    AllOverConcat([Dialed(c, over)], PtyTrace(c, cmd, p), over);
  }

  lemma PerformOver(c: nat, changeKey: bool, o: Outcomes)
    ensures AllOver(PerformTrace(c, changeKey, o), Tunnel)
  {
    ConnectionOver(c, Tunnel, CryptrootUnlock, o.first);
    ConnectionOver(c + 1, Tunnel, CryptrootUnlock, o.second);
    var change := ChangeKeyTrace(c, o.first, o.answer);
    var answered := if o.first == Ran(true) then [Answered(o.answer)] else [];
    AllOverConcat(PtyTrace(c, LuksChangeKey, o.first), answered, Tunnel);
    AllOverConcat(change, [Closed(c)], Tunnel);
    var unlock := if o.first == Ran(true) && Confirmed(o.answer) && o.redial
      then [Dialed(c + 1, Tunnel)] + PtyTrace(c + 1, CryptrootUnlock, o.second) + [Closed(c + 1)] else [];
    AllOverConcat(change + [Closed(c)], unlock, Tunnel);
    AllOverConcat([Dialed(c, Tunnel)], ChangeAndUnlockTrace(c, o), Tunnel);
    AllOverConcat([Dialed(c, Tunnel)] + ChangeAndUnlockTrace(c, o), [Closed(c)], Tunnel);
  }

  /** Every connection goes through the tunnel when it is up, and past it only when it is not. */
  lemma DialsOver(c: nat, changeKey: bool, o: Outcomes)
    ensures AllOver(UnlockTrace(c, changeKey, o), if o.tunnelUp then Tunnel else Direct)
  {
    var over := if o.tunnelUp then Tunnel else Direct;
    var body := if !o.addrParses then []
      else if o.tunnelUp then PerformTrace(c, changeKey, o)
      else if changeKey then DirectTrace(c, o)
      else [];
    PerformOver(c, changeKey, o);
    ConnectionOver(c, Direct, LuksChangeKey, o.direct);
    AllOverConcat([DeviceUp], body, over);
    AllOverConcat([DeviceUp] + body, [DeviceDown, DeviceClosed], over);
  }
}
