/** pssh_session_t and pssh_sess_entry as the program keeps them, and the
    callbacks of the session machine (src/pssh.c:79-408, src/pssh_priv.h:79-109). */
module SessionObjects {
  import opened Base
  import opened Sessions
  import opened Connecting

  class Session {
    var timeout: int
    var lastConnect: int
    var isTimeout: bool
    /** The TAILQ of hosts. */
    var entries: seq<SessEntry>
    ghost var marks: seq<int>

    ghost function View(): Timing
      reads this
    {
      Timing(timeout, lastConnect, isTimeout, marks)
    }

    constructor ()
      ensures View() == Timing(0, 0, false, []) && entries == []
    {
      timeout, lastConnect, isTimeout, entries, marks := 0, 0, false, [], [];
    }

    /** `last_connect = time(0)`. */
    method SetLastConnect(now: int)
      modifies this`lastConnect, this`marks
      ensures View() == Mark(old(View()), now)
    {
      lastConnect := now;
      marks := marks + [now];
    }

    /** The hosts are where their `place` says. */
    ghost predicate Placed()
      reads this
    {
      forall j :: 0 <= j < |entries| ==> entries[j].place == j
    }

    /** pssh_find_ent. */
    method FindEnt(srv: string) returns (e: SessEntry?)
      requires Placed()
      ensures e != null ==> e.place < |entries| && entries[e.place] == e && e.name == srv
                            && forall j :: 0 <= j < e.place ==> entries[j].name != srv
      ensures e == null ==> forall j :: 0 <= j < |entries| ==> entries[j].name != srv
    {
      for i := 0 to |entries|
        invariant forall j :: 0 <= j < i ==> entries[j].name != srv
      {
        if entries[i].name == srv {
          return entries[i];
        }
      }
      e := null;
    }

    /** pssh_shutdown_events. */
    method ShutdownEvents()
      requires Placed()
      modifies entries
      ensures forall j :: 0 <= j < |entries| ==> entries[j].View() == ShutEntry(old(entries[j].View()))
    {
      for i := 0 to |entries|
        invariant forall j :: 0 <= j < i ==> entries[j].View() == ShutEntry(old(entries[j].View()))
        invariant forall j :: i <= j < |entries| ==> entries[j].View() == old(entries[j].View())
      {
        var e := entries[i];
        if e.evUp {
          e.slot := Idle;
          e.evUp := false;
        }
      }
    }

    /** The loop of pssh_connect that gives up every unconnected host. */
    method GiveUpUnconnected()
      requires Placed()
      modifies entries
      ensures forall j :: 0 <= j < |entries| ==>
                entries[j].View() == var v := old(entries[j].View()); if v.stat != SessConnected then Goto(v, SessError) else v
    {
      for i := 0 to |entries|
        invariant forall j :: 0 <= j < i ==>
                    entries[j].View() == var v := old(entries[j].View()); if v.stat != SessConnected then Goto(v, SessError) else v
        invariant forall j :: i <= j < |entries| ==> entries[j].View() == old(entries[j].View())
      {
        var e := entries[i];
        if e.stat != SessConnected {
          e.SetStat(SessError);
        }
      }
    }
  }

  class SessEntry {
    /** Position in the list of hosts. */
    const place: nat
    const name: string
    const port: int
    const selfSess: Session
    var stat: SessStat
    var evUp: bool
    /** The event structure: what libevent has pending on it. */
    var slot: Slot
    var evType: EvType
    var isReported: bool
    var started: bool
    /** evdns still owes the callback of pssh_server_add's query. */
    var dnsPending: bool
    ghost var trace: seq<nat>
    ghost var path: seq<SessStat>

    ghost function View(): Entry
      reads this
    {
      Entry(name, stat, evUp, slot, evType, isReported, started, dnsPending, trace, path)
    }

    constructor (selfSess: Session, place: nat, name: string, port: int)
      ensures this.selfSess == selfSess && this.place == place && this.name == name && this.port == port
      ensures View() == Entry(name, SessNone, false, Idle, EvType(false, false, false), false, false, true, [], [])
    {
      this.selfSess, this.place, this.name, this.port := selfSess, place, name, port;
      stat, evUp, slot, evType := SessNone, false, Idle, EvType(false, false, false);
      isReported, started, dnsPending := false, false, true;
      trace, path := [], [];
    }

    method SetStat(s: SessStat)
      modifies this`stat, this`path
      ensures View() == Goto(old(View()), s)
    {
      stat := s;
      path := path + [s];
    }

    /** pssh_event_update. Its event_set never meets an event still pending. */
    method EventUpdate(flag: Flag)
      requires slot == Idle
      modifies this`slot, this`evUp
      ensures View() == SessArm(old(View()), flag)
      ensures slot == SessSlot(flag) && evUp
    {
      slot := SessSlot(flag);
      evUp := true;
    }

    /** pssh_eagain_handle. */
    method EagainHandle(lastIo: Flag)
      requires slot == Idle
      modifies this`slot, this`evUp
      ensures View() == SessArm(old(View()), lastIo)
      ensures slot == SessSlot(lastIo) && evUp
    {
      var flag := EvRead;
      if lastIo == EvWrite {
        flag := EvWrite;
      }
      EventUpdate(flag);
    }

    /** pssh_conn. */
    method Connect(result: ConnectResult)
      requires slot == Idle
      modifies this
      ensures View() == Conn(old(View()), result)
      ensures match result
              case InProgress => stat == SessWaitConn && slot == SessSlot(EvWrite) && evUp
              case Immediate => stat == old(stat) && slot == Idle
              case _ => stat == SessError && slot == Idle
    {
      match result
      case NoSocket =>
        SetStat(SessError);
      case ConnectFailed =>
        SetStat(SessError);
      case InProgress =>
        SetStat(SessWaitConn);
        EventUpdate(EvWrite);
      case Immediate =>
    }

    /** pssh_fsm. */
    method Fsm(net: Net)
      requires slot == Idle
      modifies this, selfSess`lastConnect, selfSess`marks
      ensures SessV(selfSess.View(), View()) == SessFsm(old(selfSess.View()), old(View()), net)
      ensures old(stat) == SessWaitConn ==>
                && stat == (if !evType.write then SessWaitConn else if net.sockOk then SessDoneConn else SessError)
                && slot == SessSlot(EvWrite)
      ensures old(stat) == SessDoneConn || old(stat) == SessWaitAuth ==>
                match net.lib
                case LibOk => stat == if old(stat) == SessDoneConn then SessWaitAuth else SessConnected
                case LibAgain => stat == old(stat) && slot == SessSlot(net.lastIo)
                case LibFailed => stat == SessError && slot == Idle
    {
      match stat
      case SessResolved =>
        Connect(net.conn);
      case SessWaitConn =>
        if evType.write {
          if net.sockOk {
            SetStat(SessDoneConn);
          } else {
            SetStat(SessError);
          }
        }
        EventUpdate(EvWrite);
      case SessDoneConn =>
        match net.lib {
          case LibOk =>
            started := true;
            SetStat(SessWaitAuth);
            EventUpdate(EvWrite);
          case LibAgain =>
            EagainHandle(net.lastIo);
          case LibFailed =>
            SetStat(SessError);
        }
      case SessWaitAuth =>
        match net.lib {
          case LibOk =>
            SetStat(SessConnected);
            selfSess.SetLastConnect(net.authNow);
          case LibAgain =>
            EagainHandle(net.lastIo);
          case LibFailed =>
            SetStat(SessError);
        }
      case _ =>
    }

    /** pssh_event_handler. libevent has already taken the event off its list. */
    method EventHandler(ev: EvType, net: Net)
      requires slot == Idle
      modifies this, selfSess`lastConnect, selfSess`marks, selfSess`isTimeout
      ensures SessV(selfSess.View(), View()) == SessFire(old(selfSess.View()), old(View()), ev, net)
      ensures ev.timeout && old(selfSess.lastConnect) != 0 && net.timerNow - old(selfSess.lastConnect) >= selfSess.timeout ==>
                selfSess.isTimeout && stat == old(stat) && slot == Idle
    {
      if ev.timeout {
        if selfSess.lastConnect != 0 {
          var isTime := net.timerNow - selfSess.lastConnect;
          if isTime >= selfSess.timeout {
            selfSess.isTimeout := true;
            return;
          }
        } else {
          selfSess.SetLastConnect(net.timerNow);
        }
      }
      evType := ev;
      evUp := false;
      Fsm(net);
    }

    /** The first lines of pssh_task_event_handler: the slot is free again. */
    method Taken(ev: EvType, ghost activation: seq<nat>)
      modifies this`evType, this`evUp, this`trace
      ensures View() == old(View()).(evType := ev, evUp := false, trace := old(trace) + activation)
    {
      evType := ev;
      evUp := false;
      trace := trace + activation;
    }

    /** pssh_dns_cb. */
    method DnsCb(ans: DnsAnswer, net: Net)
      requires slot == Idle
      modifies this, selfSess`lastConnect, selfSess`marks
      ensures SessV(selfSess.View(), View()) == DnsFire(old(selfSess.View()), old(View()), ans, net)
    {
      dnsPending := false;
      if ans.ok {
        SetStat(SessResolved);
        evUp := false;
        Fsm(net);
      } else {
        var literal := ans.literal;
        if |name| >= HOST_ADDR_MAX {
          SetStat(SessError);
          literal := false;
        }
        if !ans.hasAddr && !literal {
          SetStat(SessError);
        } else {
          SetStat(SessResolved);
          evUp := false;
          Fsm(net);
        }
      }
    }
  }
}
