/** The reconnecting Talos client: one mutable connection handle, refreshed
    when a call fails, a retry loop shared by every fetcher, and the shaping
    of each fetcher's answer once the loop is over.

    Everything the client cannot decide itself is a parameter: what each RPC
    returns, whether the `Version` probe on the current handle fails, whether
    building a new client library connection fails, and which errors the
    retry library retries. */
module TalosClient {
  import opened Wrappers
  import Machine

  /** Prefix `New` gives the error of the client library. */
  const ReinitPrefix: string := "failed to reinitialized talos client: "

  /** How Go's `%w` verb renders a nil error. */
  const NilErrorText: string := "%!w(<nil>)"

  const EtcdStatusPrefix: string := "error getting etcd status: "
  const StatusPrefix: string := "error getting status: "
  const ServiceListPrefix: string := "error listing services: "
  const ServiceInfoPrefix: string := "error getting service info: "

  /** A connection of the Talos client library; the model observes only
      whether it has been closed. */
  class Connection {
    var closed: bool

    constructor ()
      ensures !closed
    {
      closed := false;
    }

    method Close()
      modifies this
      ensures closed
    {
      closed := true;
    }
  }

  /** What one RPC call returned: possibly a (partial) response and possibly
      an error, both at once. */
  datatype Rpc<T> = Rpc(response: Option<T>, err: Option<string>)

  /** Everything one attempt of the retry loop depends on: the RPC's result,
      the error of the `Version` probe on the current handle (`None` when the
      probe succeeds) and the error of building a new connection. */
  datatype Attempt<T> = Attempt(rpc: Rpc<T>, probe: Option<string>, dial: Option<string>)

  /** The error an attempt hands to the retry library: either wrapped as
      expected (`retry.ExpectedError`) or returned as it is. */
  datatype AttemptError = Unexpected(message: string) | Expected(message: string)

  /** Builds a client over a new connection, or fails with the library's
      error behind ReinitPrefix. */
  method New(dial: Option<string>) returns (c: Result<Client, string>)
    ensures dial.None? ==> c.Ok? && fresh(c.value) && fresh(c.value.apid) && !c.value.apid.closed
    ensures dial.Some? ==> c == Err(ReinitPrefix + dial.value)
  {
    if dial.Some? {
      return Err(ReinitPrefix + dial.value);
    }
    var conn := new Connection();
    var client := new Client(conn);
    return Ok(client);
  }

  // ---------------------------------------------------------------------
  // One attempt

  /** What an attempt returns to the retry library: nil when the RPC succeeds;
      when it fails, the refresh error wrapped as expected if reconnecting
      failed (it carries ReinitPrefix twice: once from New, once from the
      refresh), and otherwise the RPC's own error. */
  function AttemptOutcome<T>(a: Attempt<T>): (o: Option<AttemptError>)
    ensures o.None? <==> a.rpc.err.None?
    ensures o.Some? && o.value.Expected? ==> ReinitPrefix + ReinitPrefix <= o.value.message
  {
    if a.rpc.err.None? then None
    else if a.probe.Some? && a.dial.Some? then Some(Expected(ReinitPrefix + ReinitPrefix + a.dial.value))
    else Some(Unexpected(a.rpc.err.value))
  }

  /** The attempt replaces the handle: the RPC failed, the probe failed and a
      new connection was built. */
  predicate Reconnects<T>(a: Attempt<T>)
  {
    a.rpc.err.Some? && a.probe.Some? && a.dial.None?
  }

  /** An attempt returns the RPC's own error exactly when the RPC failed and
      the refresh did not; it returns an expected error exactly when the RPC,
      the probe and the rebuild all failed. */
  lemma AttemptOutcomeCases<T>(a: Attempt<T>)
    ensures a.rpc.err.Some? ==>
              (AttemptOutcome(a) == Some(Unexpected(a.rpc.err.value)) <==> a.probe.None? || a.dial.None?)
    ensures (AttemptOutcome(a).Some? && AttemptOutcome(a).value.Expected?) <==>
              a.rpc.err.Some? && a.probe.Some? && a.dial.Some?
  {
  }

  // ---------------------------------------------------------------------
  // The retry loop

  /** The loop goes on after this outcome. */
  predicate Retried(o: Option<AttemptError>, retries: AttemptError -> bool)
  {
    o.Some? && retries(o.value)
  }

  /** Number of attempts the loop makes: it stops after the first attempt
      that succeeds or whose error is not retried, or once the attempts the
      deadline allows are used up. */
  function AttemptsRun<T>(attempts: seq<Attempt<T>>, retries: AttemptError -> bool): (n: nat)
    requires attempts != []
    ensures 1 <= n <= |attempts|
  {
    if |attempts| == 1 || !Retried(AttemptOutcome(attempts[0]), retries) then 1
    else 1 + AttemptsRun(attempts[1..], retries)
  }

  /** The attempt whose response and error survive the loop. */
  function LastAttempt<T>(attempts: seq<Attempt<T>>, retries: AttemptError -> bool): Attempt<T>
    requires attempts != []
  {
    attempts[AttemptsRun(attempts, retries) - 1]
  }

  /** Every attempt before the last one run was retried, and the loop ends
      early only on an attempt that is not retried. */
  lemma {:induction false} AttemptsRunStopsAtFirstFinal<T>(attempts: seq<Attempt<T>>, retries: AttemptError -> bool)
    requires attempts != []
    ensures forall i :: 0 <= i < AttemptsRun(attempts, retries) - 1 ==> Retried(AttemptOutcome(attempts[i]), retries)
    ensures AttemptsRun(attempts, retries) < |attempts| ==>
              !Retried(AttemptOutcome(LastAttempt(attempts, retries)), retries)
  {
    if |attempts| > 1 && Retried(AttemptOutcome(attempts[0]), retries) {
      var rest := attempts[1..];
      AttemptsRunStopsAtFirstFinal(rest, retries);
      forall i | 0 <= i < AttemptsRun(attempts, retries) - 1
        ensures Retried(AttemptOutcome(attempts[i]), retries)
      {
        if i > 0 {
          assert attempts[i] == rest[i - 1];
        }
      }
    }
  }

  /** A first attempt that succeeds ends the loop with its response and no
      error, whatever the later attempts would have done. */
  lemma FirstSuccessEndsLoop<T>(attempts: seq<Attempt<T>>, retries: AttemptError -> bool)
    requires attempts != [] && attempts[0].rpc.err.None?
    ensures LastAttempt(attempts, retries) == attempts[0]
    ensures AttemptOutcome(LastAttempt(attempts, retries)).None?
  {
  }

  // ---------------------------------------------------------------------
  // Result shaping, one function per fetcher

  /** The text `%w` gives for the loop's error. */
  function ErrorText(err: Option<AttemptError>): string
  {
    match err
    case None => NilErrorText
    case Some(e) => e.message
  }

  function Message(err: Option<AttemptError>): (m: Option<string>)
    ensures m.None? <==> err.None?
  {
    match err
    case None => None
    case Some(e) => Some(e.message)
  }

  /** Etcd status: any loop error discards the response; a missing response
      with no error is still an error; otherwise the members' statuses with a
      nil error. */
  function EtcdStatusResult(response: Option<Machine.EtcdStatusResponse>, err: Option<AttemptError>): (r: Fetched<Machine.EtcdStatus>)
    ensures r.err.Some? ==> r.data == []
    ensures r.err.None? <==> err.None? && response.Some?
    ensures r.err.None? ==> r.data == response.value.messages
    ensures err.Some? ==> r.err == Some(EtcdStatusPrefix + err.value.message)
  {
    if err.Some? then Fetched([], Some(EtcdStatusPrefix + err.value.message))
    else if response.None? then Fetched([], Some(StatusPrefix + NilErrorText))
    else Fetched(response.value.messages, None)
  }

  /** The alarms of all messages, in message order and, within a message, in
      member order. */
  function Alarms(messages: seq<Machine.EtcdAlarm>): seq<Machine.EtcdMemberAlarm>
  {
    if messages == [] then []
    else Alarms(messages[..|messages| - 1]) + messages[|messages| - 1].memberAlarms
  }

  /** Total number of alarms the messages carry. */
  function AlarmCount(messages: seq<Machine.EtcdAlarm>): nat
  {
    if messages == [] then 0 else |messages[0].memberAlarms| + AlarmCount(messages[1..])
  }

  /** Flattening concatenates: the alarms of consecutive message runs follow
      each other. */
  lemma {:induction false} AlarmsConcat(a: seq<Machine.EtcdAlarm>, b: seq<Machine.EtcdAlarm>)
    ensures Alarms(a + b) == Alarms(a) + Alarms(b)
  {
    if b != [] {
      var init := b[..|b| - 1];
      AlarmsConcat(a, init);
      assert (a + b)[..|a + b| - 1] == a + init;
      assert (a + b)[|a + b| - 1] == b[|b| - 1];
      assert Alarms(b) == Alarms(init) + b[|b| - 1].memberAlarms;
    } else {
      assert a + b == a;
    }
  }

  /** The flattened list of a message followed by more messages. */
  lemma AlarmsCons(messages: seq<Machine.EtcdAlarm>)
    requires messages != []
    ensures Alarms(messages) == messages[0].memberAlarms + Alarms(messages[1..])
  {
    AlarmsConcat([messages[0]], messages[1..]);
    assert [messages[0]] + messages[1..] == messages;
    assert [messages[0]][..0] == [];
  }

  /** The flattened list has one entry per alarm. */
  lemma {:induction false} AlarmsLength(messages: seq<Machine.EtcdAlarm>)
    ensures |Alarms(messages)| == AlarmCount(messages)
  {
    if messages != [] {
      AlarmsLength(messages[1..]);
      AlarmsCons(messages);
    }
  }

  /** The flattened list holds exactly the alarms of the messages. */
  lemma {:induction false} AlarmsMember(messages: seq<Machine.EtcdAlarm>, x: Machine.EtcdMemberAlarm)
    ensures x in Alarms(messages) <==> exists i :: 0 <= i < |messages| && x in messages[i].memberAlarms
  {
    if messages != [] {
      var rest := messages[1..];
      AlarmsMember(rest, x);
      AlarmsCons(messages);
      if x in Alarms(rest) {
        var i :| 0 <= i < |rest| && x in rest[i].memberAlarms;
        assert messages[i + 1] == rest[i];
      }
      if exists i :: 0 <= i < |messages| && x in messages[i].memberAlarms {
        var i :| 0 <= i < |messages| && x in messages[i].memberAlarms;
        if i > 0 {
          assert rest[i - 1] == messages[i];
        }
      }
    }
  }

  /** The flattened list is empty, a nil slice, iff no message has an alarm. */
  lemma AlarmsEmpty(messages: seq<Machine.EtcdAlarm>)
    ensures Alarms(messages) == [] <==> forall i :: 0 <= i < |messages| ==> messages[i].memberAlarms == []
  {
    if Alarms(messages) != [] {
      var x := Alarms(messages)[0];
      AlarmsMember(messages, x);
    } else {
      forall i | 0 <= i < |messages| ensures messages[i].memberAlarms == [] {
        if messages[i].memberAlarms != [] {
          AlarmsMember(messages, messages[i].memberAlarms[0]);
        }
      }
    }
  }

  /** Collects every member alarm of every message into one list, which stays
      empty (nil) when there are none. */
  method FlattenAlarms(messages: seq<Machine.EtcdAlarm>) returns (alarms: seq<Machine.EtcdMemberAlarm>)
    ensures alarms == Alarms(messages)
    ensures |alarms| == AlarmCount(messages)
  {
    alarms := [];
    var i := 0;
    while i < |messages|
      invariant 0 <= i <= |messages|
      invariant alarms == Alarms(messages[..i])
    {
      var memberAlarms := messages[i].memberAlarms;
      var j := 0;
      while j < |memberAlarms|
        invariant 0 <= j <= |memberAlarms|
        invariant alarms == Alarms(messages[..i]) + memberAlarms[..j]
      {
        assert memberAlarms[..j + 1] == memberAlarms[..j] + [memberAlarms[j]];
        alarms := alarms + [memberAlarms[j]];
        j := j + 1;
      }
      assert memberAlarms[..j] == memberAlarms;
      assert messages[..i + 1][..i] == messages[..i];
      i := i + 1;
    }
    assert messages[..i] == messages;
    AlarmsLength(messages);
  }

  /** Etcd alarms: a missing response is an error; otherwise the flattened
      alarms together with the loop's error, which may be non-nil. */
  function EtcdAlarmsResult(response: Option<Machine.EtcdAlarmListResponse>, err: Option<AttemptError>): (r: Fetched<Machine.EtcdMemberAlarm>)
    ensures response.None? ==> r.data == [] && r.err == Some(StatusPrefix + ErrorText(err))
    ensures response.Some? ==> r.data == Alarms(response.value.messages) && r.err == Message(err)
  {
    if response.None? then Fetched([], Some(StatusPrefix + ErrorText(err)))
    else Fetched(Alarms(response.value.messages), Message(err))
  }

  /** Service list: a missing response is an error; otherwise the per-node
      lists together with the loop's error, which may be non-nil. */
  function ServiceListResult(response: Option<Machine.ServiceListResponse>, err: Option<AttemptError>): (r: Fetched<Machine.ServiceList>)
    ensures response.None? ==> r.data == [] && r.err == Some(ServiceListPrefix + ErrorText(err))
    ensures response.Some? ==> r.data == response.value.messages && r.err == Message(err)
  {
    if response.None? then Fetched([], Some(ServiceListPrefix + ErrorText(err)))
    else Fetched(response.value.messages, Message(err))
  }

  /** Service info: the captured slice is nil when there is no response or no
      entry; then the answer is an error (even after a successful call);
      otherwise the entries together with the loop's error. */
  function ServiceInfoResult(response: Option<seq<Machine.ServiceInfo>>, err: Option<AttemptError>): (r: Fetched<Machine.ServiceInfo>)
    ensures (response.None? || response.value == []) ==>
              r.data == [] && r.err == Some(ServiceInfoPrefix + ErrorText(err))
    ensures response.Some? && response.value != [] ==> r.data == response.value && r.err == Message(err)
  {
    if response.None? || response.value == [] then Fetched([], Some(ServiceInfoPrefix + ErrorText(err)))
    else Fetched(response.value, Message(err))
  }

  /** The fetchers disagree on partial answers: when the loop ends with an
      error but a response was received, the service list keeps the data
      and the etcd status discards it. */
  lemma PartialAnswers(services: Machine.ServiceListResponse, members: Machine.EtcdStatusResponse, e: AttemptError)
    requires services.messages != [] && members.messages != []
    ensures ServiceListResult(Some(services), Some(e)).data == services.messages
    ensures ServiceListResult(Some(services), Some(e)).err == Some(e.message)
    ensures EtcdStatusResult(Some(members), Some(e)).data == []
  {
  }

  /** The client: one connection handle, replaced when it goes stale. */
  class Client {
    var apid: Connection

    constructor (apid: Connection)
      ensures this.apid == apid
    {
      this.apid := apid;
    }

    /** Keeps the handle if the probe succeeds; otherwise builds a new
        connection and, if that works, closes the old handle and installs the
        new one; if it fails, leaves the handle alone and returns the error,
        prefixed once more. */
    method RefreshConnection(probe: Option<string>, dial: Option<string>) returns (err: Option<string>)
      modifies this, apid
      ensures probe.None? ==> err.None? && apid == old(apid) && apid.closed == old(apid.closed)
      ensures probe.Some? && dial.None? ==> err.None? && old(apid).closed && fresh(apid) && !apid.closed
      ensures probe.Some? && dial.Some? ==>
                err == Some(ReinitPrefix + ReinitPrefix + dial.value)
                && apid == old(apid) && apid.closed == old(apid.closed)
    {
      if probe.Some? {
        var talos := New(dial);
        if talos.Err? {
          assert ReinitPrefix + talos.error == ReinitPrefix + ReinitPrefix + dial.value;
          return Some(ReinitPrefix + talos.error);
        }
        apid.Close();
        apid := talos.value.apid;
      }
      return None;
    }

    /** One attempt: the captured response is overwritten by the call's; on
        failure the connection is refreshed exactly once. */
    method Try<T>(a: Attempt<T>) returns (response: Option<T>, outcome: Option<AttemptError>)
      modifies this, apid
      ensures response == a.rpc.response
      ensures outcome == AttemptOutcome(a)
      ensures Reconnects(a) ==> old(apid).closed && fresh(apid) && !apid.closed
      ensures !Reconnects(a) ==> apid == old(apid) && apid.closed == old(apid.closed)
    {
      var getErr;
      response, getErr := a.rpc.response, a.rpc.err;
      if getErr.Some? {
        var err := RefreshConnection(a.probe, a.dial);
        if err.Some? {
          return response, Some(Expected(err.value));
        }
        return response, Some(Unexpected(getErr.value));
      }
      return response, None;
    }

    /** Runs attempts until one is final; returns the last attempt's response
        and error. The handle is replaced iff some attempt run reconnected,
        and a replaced handle has been closed. */
    method Retry<T>(attempts: seq<Attempt<T>>, retries: AttemptError -> bool) returns (response: Option<T>, err: Option<AttemptError>)
      requires attempts != []
      modifies this, apid
      ensures response == LastAttempt(attempts, retries).rpc.response
      ensures err == AttemptOutcome(LastAttempt(attempts, retries))
      ensures apid == old(apid) <==> forall i :: 0 <= i < AttemptsRun(attempts, retries) ==> !Reconnects(attempts[i])
      ensures apid != old(apid) ==> old(apid).closed && fresh(apid) && !apid.closed
      ensures apid == old(apid) ==> apid.closed == old(apid.closed)
    {
      var i := 0;
      response, err := Try(attempts[0]);
      while i + 1 < |attempts| && Retried(err, retries)
        invariant 0 <= i < |attempts|
        invariant AttemptsRun(attempts, retries) == i + AttemptsRun(attempts[i..], retries)
        invariant response == attempts[i].rpc.response && err == AttemptOutcome(attempts[i])
        invariant apid == old(apid) <==> forall k :: 0 <= k <= i ==> !Reconnects(attempts[k])
        invariant apid != old(apid) ==> old(apid).closed && fresh(apid) && !apid.closed
        invariant apid == old(apid) ==> apid.closed == old(apid.closed)
      {
        assert attempts[i..][1..] == attempts[i + 1..];
        i := i + 1;
        response, err := Try(attempts[i]);
      }
    }

    method GetEtcdStatus(attempts: seq<Attempt<Machine.EtcdStatusResponse>>, retries: AttemptError -> bool)
      returns (r: Fetched<Machine.EtcdStatus>)
      requires attempts != []
      modifies this, apid
      ensures r == EtcdStatusResult(LastAttempt(attempts, retries).rpc.response, AttemptOutcome(LastAttempt(attempts, retries)))
      ensures apid == old(apid) <==> forall i :: 0 <= i < AttemptsRun(attempts, retries) ==> !Reconnects(attempts[i])
      ensures apid != old(apid) ==> old(apid).closed && fresh(apid) && !apid.closed
      ensures apid == old(apid) ==> apid.closed == old(apid.closed)
    {
      var etcdStatus, err := Retry(attempts, retries);
      if err.Some? {
        return Fetched([], Some(EtcdStatusPrefix + err.value.message));
      }
      if etcdStatus.None? {
        return Fetched([], Some(StatusPrefix + ErrorText(err)));
      }
      return Fetched(etcdStatus.value.messages, None);
    }

    method GetEtcdAlarms(attempts: seq<Attempt<Machine.EtcdAlarmListResponse>>, retries: AttemptError -> bool)
      returns (r: Fetched<Machine.EtcdMemberAlarm>)
      requires attempts != []
      modifies this, apid
      ensures r == EtcdAlarmsResult(LastAttempt(attempts, retries).rpc.response, AttemptOutcome(LastAttempt(attempts, retries)))
      ensures apid == old(apid) <==> forall i :: 0 <= i < AttemptsRun(attempts, retries) ==> !Reconnects(attempts[i])
      ensures apid != old(apid) ==> old(apid).closed && fresh(apid) && !apid.closed
      ensures apid == old(apid) ==> apid.closed == old(apid.closed)
    {
      var response, err := Retry(attempts, retries);
      if response.None? {
        return Fetched([], Some(StatusPrefix + ErrorText(err)));
      }
      var alarms := FlattenAlarms(response.value.messages);
      return Fetched(alarms, Message(err));
    }

    method GetServiceList(attempts: seq<Attempt<Machine.ServiceListResponse>>, retries: AttemptError -> bool)
      returns (r: Fetched<Machine.ServiceList>)
      requires attempts != []
      modifies this, apid
      ensures r == ServiceListResult(LastAttempt(attempts, retries).rpc.response, AttemptOutcome(LastAttempt(attempts, retries)))
      ensures apid == old(apid) <==> forall i :: 0 <= i < AttemptsRun(attempts, retries) ==> !Reconnects(attempts[i])
      ensures apid != old(apid) ==> old(apid).closed && fresh(apid) && !apid.closed
      ensures apid == old(apid) ==> apid.closed == old(apid.closed)
    {
      var serviceList, err := Retry(attempts, retries);
      if serviceList.None? {
        return Fetched([], Some(ServiceListPrefix + ErrorText(err)));
      }
      return Fetched(serviceList.value.messages, Message(err));
    }

    method GetServiceInfo(attempts: seq<Attempt<seq<Machine.ServiceInfo>>>, retries: AttemptError -> bool)
      returns (r: Fetched<Machine.ServiceInfo>)
      requires attempts != []
      modifies this, apid
      ensures r == ServiceInfoResult(LastAttempt(attempts, retries).rpc.response, AttemptOutcome(LastAttempt(attempts, retries)))
      ensures apid == old(apid) <==> forall i :: 0 <= i < AttemptsRun(attempts, retries) ==> !Reconnects(attempts[i])
      ensures apid != old(apid) ==> old(apid).closed && fresh(apid) && !apid.closed
      ensures apid == old(apid) ==> apid.closed == old(apid.closed)
    {
      var services, err := Retry(attempts, retries);
      if services.None? || services.value == [] {
        return Fetched([], Some(ServiceInfoPrefix + ErrorText(err)));
      }
      return Fetched(services.value, Message(err));
    }
  }
}
