/**
 * The per-device session state machine of `onStateChange` and `closeSession`,
 * stated as functions of the configuration, the open sessions and the update:
 * which sessions are open afterwards and which log entries were written.
 * Each device key is Idle (no entry in the session map) or Active (one entry).
 * The adapter's methods are proved to do what these functions say.
 */
module Sessions {
  import opened Wrappers
  import opened Text
  import opened Calendar
  import opened Records
  import opened Geofence

  /** `state.val`: absent (`undefined`), `null`, or a value whose `toString()` is `text`. */
  datatype Value = Undefined | Null | Val(text: string)

  /** A state update `{val, ts}`; `ts` is absent or a time in milliseconds. */
  datatype StateUpdate = StateUpdate(val: Value, ts: Option<int>)

  /** `state.ts || Date.now()`: a missing or zero timestamp is replaced by the clock. */
  function EffectiveTimestamp(ts: Option<int>, now: int): (t: int)
    ensures ts.Some? && ts.value != 0 ==> t == ts.value
    ensures ts.None? || ts.value == 0 ==> t == now
  {
    if ts.Some? && ts.value != 0 then ts.value else now
  }

  // ---------------------------------------------------------------------------
  // closeSession
  // ---------------------------------------------------------------------------

  /** `durationMs / (1000 * 60 * 60)`. */
  function DurationHours(startTime: int, endTime: int): real
  {
    (endTime - startTime) as real / 3600000.0
  }

  /** The duration in hours converts back to the milliseconds between the two times. */
  lemma DurationHoursInverse(startTime: int, endTime: int)
    ensures startTime as real + DurationHours(startTime, endTime) * 3600000.0 == endTime as real
  {
  }

  /** Durations of back-to-back sessions add up: closing at `b` and reopening at `b` loses no time. */
  lemma DurationHoursAdditive(a: int, b: int, c: int)
    ensures DurationHours(a, b) + DurationHours(b, c) == DurationHours(a, c)
  {
  }

  /** `this.config.customers[key] || {name: key, hourlyRate: 0}`, with `address || ''` applied. */
  function CustomerFor(customers: map<string, Customer>, key: string): (c: Customer)
    ensures key in customers ==> c.name == customers[key].name && c.address == customers[key].address
                                 && c.hourlyRate == customers[key].hourlyRate
    ensures key !in customers ==> c.name == key && c.address == "" && c.hourlyRate == 0.0
  {
    if key in customers then customers[key] else Customer(key, "", 0.0, "")
  }

  /** The log entry `closeSession` builds for a session that ends at `endTime`. */
  function BuildLogEntry(employee: Employee, customers: map<string, Customer>, session: Session, endTime: int): LogEntry
  {
    var customer := CustomerFor(customers, session.customer);
    LogEntry(FullName(employee), customer.name, customer.address, customer.hourlyRate,
             ToIsoString(session.startTime), ToIsoString(endTime),
             DurationHours(session.startTime, endTime), session.workDescription)
  }

  /**
   * The entry records the session faithfully: its two times read back as the
   * session's start and the end (for four-digit years), its hours span exactly
   * that interval, it names the employee, a configured customer is billed with
   * its own name, address and rate, and an unknown customer is billed under its
   * own key at rate 0.
   */
  lemma LogEntryRecordsSession(employee: Employee, customers: map<string, Customer>, session: Session, endTime: int)
    requires 0 <= YearOf(session.startTime / MsPerDay) <= 9999 && 0 <= YearOf(endTime / MsPerDay) <= 9999
    ensures var e := BuildLogEntry(employee, customers, session, endTime);
      && ParseIso(e.startTime) == Some(session.startTime)
      && ParseIso(e.endTime) == Some(endTime)
      && session.startTime as real + e.durationHours * 3600000.0 == endTime as real
      && e.employee == employee.firstName + " " + employee.lastName
      && e.workDescription == session.workDescription
      && (session.customer in customers ==>
            && e.customer == customers[session.customer].name
            && e.address == customers[session.customer].address
            && e.hourlyRate == customers[session.customer].hourlyRate)
      && (session.customer !in customers ==> e.customer == session.customer && e.address == "" && e.hourlyRate == 0.0)
  {
    IsoStringRoundTrip(session.startTime);
    IsoStringRoundTrip(endTime);
    DurationHoursInverse(session.startTime, endTime);
  }

  /** What `closeSession` does: nothing without a session, fails without an employee, or logs and removes it. */
  datatype CloseResult = NothingToClose | CloseFailed | ClosedWith(entry: LogEntry)

  function CloseSessionResult(customers: map<string, Customer>, employees: map<string, Employee>,
                              sessions: map<string, Session>, device: string, endTime: int): (r: CloseResult)
    ensures r.NothingToClose? <==> device !in sessions
    ensures r.CloseFailed? <==> device in sessions && device !in employees
  {
    if device !in sessions then NothingToClose
    else if device !in employees then CloseFailed
    else ClosedWith(BuildLogEntry(employees[device], customers, sessions[device], endTime))
  }

  // ---------------------------------------------------------------------------
  // onStateChange
  // ---------------------------------------------------------------------------

  /** What one update did, as seen from the session of the device it names. */
  datatype Outcome =
    | Ignored        // no state, `val` undefined, or an id that is not a geofence state
    | NoEmployee     // the device key has no employee entry
    | Failed         // `val` is null: `null.toString()` throws before anything changes
    | Opened         // Idle, customer key: a session starts
    | Kept           // Active, the same customer key: nothing happens
    | Switched       // Active, another customer key: the session closes and a new one starts
    | Closed         // Active, sentinel: the session closes
    | StayedIdle     // Idle, sentinel: nothing happens

  /** A session that `closeSession` ends: whose it is, the session, and when it ends. */
  datatype Closing = Closing(employee: Employee, session: Session, endTime: int)

  /**
   * The sessions after an update and the session it closed, if any. The entry
   * that closing writes to the work log is `LogOf(customers, closing)`.
   */
  datatype Transition = Transition(outcome: Outcome, sessions: map<string, Session>, closing: Option<Closing>)

  /** The work-log entries a transition writes: one per closed session. */
  function LogOf(customers: map<string, Customer>, closing: Option<Closing>): (r: seq<LogEntry>)
    ensures |r| == (if closing.Some? then 1 else 0)
    ensures closing.Some? ==> r[0].employee == FullName(closing.value.employee)
  {
    match closing
    case None => []
    case Some(c) => [BuildLogEntry(c.employee, customers, c.session, c.endTime)]
  }

  /** Closing an open session of a known employee logs exactly the entry `LogOf` gives. */
  lemma ClosedEntryIsLogged(customers: map<string, Customer>, employees: map<string, Employee>,
                            sessions: map<string, Session>, device: string, endTime: int)
    requires device in sessions && device in employees
    ensures CloseSessionResult(customers, employees, sessions, device, endTime).ClosedWith?
    ensures [CloseSessionResult(customers, employees, sessions, device, endTime).entry]
         == LogOf(customers, Some(Closing(employees[device], sessions[device], endTime)))
  {
    var e := BuildLogEntry(employees[device], customers, sessions[device], endTime);
    assert CloseSessionResult(customers, employees, sessions, device, endTime) == ClosedWith(e);
    assert LogOf(customers, Some(Closing(employees[device], sessions[device], endTime))) == [e];
  }

  /**
   * The state machine of one device `d` with employee `employee`, given the
   * trimmed value `v` and the effective timestamp `t` (main.js, after the
   * employee lookup): open, keep, switch, close, or stay idle.
   */
  function DeviceStep(employee: Employee, sessions: map<string, Session>, d: string, v: string, t: int): Transition
  {
    if IsCustomerKey(v) then
      if d !in sessions then Transition(Opened, sessions[d := Session(v, t, "")], None)
      else if sessions[d].customer != v then
        Transition(Switched, sessions[d := Session(v, t, "")], Some(Closing(employee, sessions[d], t)))
      else Transition(Kept, sessions, None)
    else if d in sessions then
      Transition(Closed, sessions - {d}, Some(Closing(employee, sessions[d], t)))
    else Transition(StayedIdle, sessions, None)
  }

  /** `onStateChange(id, state)` with the clock reading `now`, as a function of the employees and the sessions. */
  function StateChange(employees: map<string, Employee>, sessions: map<string, Session>,
                       id: string, state: Option<StateUpdate>, now: int): Transition
  {
    if state.None? || state.value.val.Undefined? then Transition(Ignored, sessions, None)
    else match DeviceKeyOf(id)
      case None => Transition(Ignored, sessions, None)
      case Some(device) =>
        if device !in employees then Transition(NoEmployee, sessions, None)
        else if state.value.val.Null? then Transition(Failed, sessions, None)
        else DeviceStep(employees[device], sessions, device,
                        Trim(state.value.val.text), EffectiveTimestamp(state.value.ts, now))
  }

  /** The outcomes that leave the sessions as they were and close nothing. */
  predicate Quiet(o: Outcome)
  {
    o.Ignored? || o.NoEmployee? || o.Failed? || o.Kept? || o.StayedIdle?
  }

  /** The device step changes something exactly when its outcome is not quiet, and then only device `d`'s entry. */
  lemma DeviceStepQuiet(employee: Employee, sessions: map<string, Session>, d: string, v: string, t: int)
    ensures var r := DeviceStep(employee, sessions, d, v, t);
      && (Quiet(r.outcome) <==> r.sessions == sessions && r.closing == None)
      && (forall o :: o != d ==> (o in r.sessions <==> o in sessions) && (o in sessions ==> r.sessions[o] == sessions[o]))
  {
    var r := DeviceStep(employee, sessions, d, v, t);
    if r.outcome.Opened? {
      assert d in r.sessions && d !in sessions;
    } else if r.outcome.Closed? {
      assert d !in r.sessions && d in sessions;
    }
  }

  /**
   * No state, an undefined value, an id that is not a geofence state, a device
   * without an employee, and a null value leave the sessions unchanged and close
   * nothing; so do the no-op transitions, and only they.
   */
  lemma QuietChangesNothing(employees: map<string, Employee>, sessions: map<string, Session>,
                            id: string, state: Option<StateUpdate>, now: int)
    ensures var r := StateChange(employees, sessions, id, state, now);
      && (state.None? || state.value.val.Undefined? || DeviceKeyOf(id).None? ==> r.outcome.Ignored?)
      && (DeviceKeyOf(id).Some? && DeviceKeyOf(id).value !in employees ==> Quiet(r.outcome))
      && (state.Some? && state.value.val.Null? ==> Quiet(r.outcome))
      && (Quiet(r.outcome) <==> r.sessions == sessions && r.closing == None)
  {
    var r := StateChange(employees, sessions, id, state, now);
    if state.Some? && state.value.val.Val? && DeviceKeyOf(id).Some? && DeviceKeyOf(id).value in employees {
      var d, v, t := DeviceKeyOf(id).value, Trim(state.value.val.text), EffectiveTimestamp(state.value.ts, now);
      assert r == DeviceStep(employees[d], sessions, d, v, t);
      DeviceStepQuiet(employees[d], sessions, d, v, t);
    } else {
      assert Quiet(r.outcome) && r.sessions == sessions && r.closing == None;
    }
  }

  /** An update touches the session of its own device only; every other device keeps its session or its absence. */
  lemma OtherDevicesUntouched(employees: map<string, Employee>, sessions: map<string, Session>,
                              id: string, state: Option<StateUpdate>, now: int, other: string)
    requires DeviceKeyOf(id) != Some(other)
    ensures var r := StateChange(employees, sessions, id, state, now);
      (other in r.sessions <==> other in sessions) && (other in sessions ==> r.sessions[other] == sessions[other])
  {
    var r := StateChange(employees, sessions, id, state, now);
    if state.Some? && state.value.val.Val? && DeviceKeyOf(id).Some? && DeviceKeyOf(id).value in employees {
      var d, v, t := DeviceKeyOf(id).value, Trim(state.value.val.text), EffectiveTimestamp(state.value.ts, now);
      assert r == DeviceStep(employees[d], sessions, d, v, t);
      DeviceStepQuiet(employees[d], sessions, d, v, t);
    } else {
      assert r.sessions == sessions;
    }
  }

  /**
   * The transitions of the device `d` an update names, for a state with a value
   * whose trimmed text is `v` at effective time `t`: Idle plus a customer key
   * opens `{customer: v, startTime: t, workDescription: ""}`; Active plus the
   * same key keeps the session; Active plus another key closes the old session
   * at `t`, the instant the new one starts; Active plus the sentinel closes the
   * session at `t` and removes it; Idle plus the sentinel does nothing.
   */
  lemma DeviceTransitions(employees: map<string, Employee>, sessions: map<string, Session>,
                          id: string, text: string, ts: Option<int>, now: int)
    requires DeviceKeyOf(id).Some? && DeviceKeyOf(id).value in employees
    ensures var d, v, t := DeviceKeyOf(id).value, Trim(text), EffectiveTimestamp(ts, now);
      var r := StateChange(employees, sessions, id, Some(StateUpdate(Val(text), ts)), now);
      && (IsCustomerKey(v) && d !in sessions ==>
            r.outcome == Opened && r.sessions == sessions[d := Session(v, t, "")] && r.closing == None)
      && (IsCustomerKey(v) && d in sessions && sessions[d].customer == v ==>
            r.outcome == Kept && r.sessions == sessions && r.closing == None)
      && (IsCustomerKey(v) && d in sessions && sessions[d].customer != v ==>
            && r.outcome == Switched && r.sessions == sessions[d := Session(v, t, "")]
            && r.closing == Some(Closing(employees[d], sessions[d], t))
            && r.closing.value.endTime == r.sessions[d].startTime)
      && (!IsCustomerKey(v) && d in sessions ==>
            r.outcome == Closed && r.sessions == sessions - {d} && r.closing == Some(Closing(employees[d], sessions[d], t)))
      && (!IsCustomerKey(v) && d !in sessions ==>
            r.outcome == StayedIdle && r.sessions == sessions && r.closing == None)
  {
    var d, v, t := DeviceKeyOf(id).value, Trim(text), EffectiveTimestamp(ts, now);
    assert StateChange(employees, sessions, id, Some(StateUpdate(Val(text), ts)), now) == DeviceStep(employees[d], sessions, d, v, t);
  }

  /** A device holds at most one session, and after a customer key it holds exactly one, for that customer. */
  lemma CustomerKeyLeavesOneSession(employee: Employee, sessions: map<string, Session>, d: string, v: string, t: int)
    requires IsCustomerKey(v)
    ensures var r := DeviceStep(employee, sessions, d, v, t);
      d in r.sessions && r.sessions[d].customer == v && r.sessions.Keys == sessions.Keys + {d}
  {
  }

  /** The device step repeated with the same value, at any time, changes nothing. */
  lemma DeviceStepRepeat(employee: Employee, sessions: map<string, Session>, d: string, v: string, t: int, later: int)
    ensures var r1 := DeviceStep(employee, sessions, d, v, t);
      Quiet(DeviceStep(employee, r1.sessions, d, v, later).outcome)
  {
  }

  /**
   * A repeated identical update is a no-op: after any update, the same update
   * again (at any clock reading) leaves the sessions as they are and closes nothing.
   */
  lemma RepeatIsNoOp(employees: map<string, Employee>, sessions: map<string, Session>,
                     id: string, state: Option<StateUpdate>, now: int, later: int)
    ensures var r1 := StateChange(employees, sessions, id, state, now);
      var r2 := StateChange(employees, r1.sessions, id, state, later);
      Quiet(r2.outcome) && r2.sessions == r1.sessions && r2.closing == None
  {
    var r1 := StateChange(employees, sessions, id, state, now);
    if state.Some? && state.value.val.Val? && DeviceKeyOf(id).Some? && DeviceKeyOf(id).value in employees {
      var d, v := DeviceKeyOf(id).value, Trim(state.value.val.text);
      DeviceStepRepeat(employees[d], sessions, d, v, EffectiveTimestamp(state.value.ts, now), EffectiveTimestamp(state.value.ts, later));
    }
    QuietChangesNothing(employees, r1.sessions, id, state, later);
  }

  /** Every open session belongs to a device with an employee, names a customer key and has no description yet. */
  predicate SessionsValid(employees: map<string, Employee>, sessions: map<string, Session>)
  {
    forall d :: d in sessions ==> d in employees && IsCustomerKey(sessions[d].customer) && sessions[d].workDescription == ""
  }

  /** The device step keeps the sessions valid, and a session it closes was open, under the given employee, and ends at `t`. */
  lemma DeviceStepKeepsValid(employees: map<string, Employee>, sessions: map<string, Session>, d: string, v: string, t: int)
    requires SessionsValid(employees, sessions) && d in employees
    ensures var r := DeviceStep(employees[d], sessions, d, v, t);
      && SessionsValid(employees, r.sessions)
      && (r.closing.Some? ==> d in sessions && r.closing.value == Closing(employees[d], sessions[d], t))
  {
    var r := DeviceStep(employees[d], sessions, d, v, t);
    forall o | o in r.sessions
      ensures o in employees && IsCustomerKey(r.sessions[o].customer) && r.sessions[o].workDescription == ""
    {
      if o != d {
        assert o in sessions && r.sessions[o] == sessions[o];
      }
    }
  }

  /**
   * Updates keep the sessions valid, and a session an update closes is the open
   * session of the device the id names, logged under that device's employee.
   */
  lemma StateChangeKeepsValid(employees: map<string, Employee>, sessions: map<string, Session>,
                              id: string, state: Option<StateUpdate>, now: int)
    requires SessionsValid(employees, sessions)
    ensures var r := StateChange(employees, sessions, id, state, now);
      && SessionsValid(employees, r.sessions)
      && (r.closing.Some? ==>
            && DeviceKeyOf(id).Some? && DeviceKeyOf(id).value in sessions
            && r.closing.value.employee == employees[DeviceKeyOf(id).value]
            && r.closing.value.session == sessions[DeviceKeyOf(id).value])
  {
    var r := StateChange(employees, sessions, id, state, now);
    if state.Some? && state.value.val.Val? && DeviceKeyOf(id).Some? && DeviceKeyOf(id).value in employees {
      var d, v, t := DeviceKeyOf(id).value, Trim(state.value.val.text), EffectiveTimestamp(state.value.ts, now);
      assert r == DeviceStep(employees[d], sessions, d, v, t);
      DeviceStepKeepsValid(employees, sessions, d, v, t);
    } else {
      assert r.sessions == sessions && r.closing == None;
    }
  }
}
