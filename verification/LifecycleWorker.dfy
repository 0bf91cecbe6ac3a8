/** The in-process worker: an ordered set of job keys drained one tick at a time. */
module LifecycleWorker {
  import opened Wrappers
  import opened SortedText
  import opened LifecycleRun
  import opened LifecycleTheorems

  datatype Job = Job(projectId: Text, runId: Text, requestId: Text)

  datatype Parsed = Parsed(projectId: Text, runId: Text)

  function ToJobKey(projectId: Text, runId: Text): Text {
    projectId + [COLON] + runId
  }

  function FirstColon(key: Text): Option<nat> {
    if key == [] then None
    else if key[0] == COLON then Some(0)
    else match FirstColon(key[1..]) case None => None case Some(i) => Some(i + 1)
  }

  lemma {:induction false} FirstColonMeans(key: Text)
    ensures FirstColon(key).Some? <==> COLON in key
    ensures FirstColon(key).Some? ==>
      FirstColon(key).value < |key| && key[FirstColon(key).value] == COLON && COLON !in key[..FirstColon(key).value]
  {
    if key != [] && key[0] != COLON {
      FirstColonMeans(key[1..]);
      assert key == [key[0]] + key[1..];
      if FirstColon(key).Some? {
        var i := FirstColon(key).value;
        assert key[..i] == [key[0]] + key[1..][..i - 1];
      }
    }
  }

  function FromJobKey(key: Text): Parsed {
    match FirstColon(key)
    case None => Parsed([], key)
    case Some(splitAt) => FirstColonMeans(key); Parsed(key[..splitAt], key[splitAt + 1..])
  }

  /** A key parses back to its job exactly when the project id has no colon in it. */
  lemma KeyParsesBack(projectId: Text, runId: Text)
    ensures FromJobKey(ToJobKey(projectId, runId)) == Parsed(projectId, runId) <==> COLON !in projectId
  {
    var key := ToJobKey(projectId, runId);
    FirstColonMeans(key);
    assert key[|projectId|] == COLON;
    var i := FirstColon(key).value;
    if COLON !in projectId {
      assert forall j :: 0 <= j < |projectId| ==> key[j] == projectId[j];
      assert i == |projectId|;
    } else {
      var j :| 0 <= j < |projectId| && projectId[j] == COLON;
      assert key[j] == COLON && COLON in key[..|projectId|];
      assert key[..|projectId|] == projectId;
    }
  }

  lemma KeyIsItsParts(key: Text)
    requires COLON in key
    ensures key == ToJobKey(FromJobKey(key).projectId, FromJobKey(key).runId)
  {
    FirstColonMeans(key);
    var i := FirstColon(key).value;
    assert key == key[..i] + [key[i]] + key[i + 1..];
  }

  /** Keys that hold a colon name different runs when they differ. */
  lemma KeysAreRuns(a: Text, b: Text)
    requires COLON in a && COLON in b && FromJobKey(a) == FromJobKey(b)
    ensures a == b
  {
    hide FromJobKey, ToJobKey;
    KeyIsItsParts(a);
    KeyIsItsParts(b);
  }

  // ---- one service --------------------------------------------------------------------------------------

  datatype Row = Row(projectId: Text, run: Run)

  type Rows = map<Text, Row>

  predicate Found(rows: Rows, key: Text) {
    var p := FromJobKey(key);
    p.runId in rows && rows[p.runId].projectId == p.projectId
  }

  function RunOf(rows: Rows, key: Text): Run
    requires Found(rows, key)
  {
    rows[FromJobKey(key).runId].run
  }

  predicate AsksAgain(rows: Rows, key: Text, configured: Option<int>) {
    Found(rows, key) && Wants(RunOf(rows, key), configured)
  }

  function AfterService(rows: Rows, key: Text, configured: Option<int>): Rows {
    if Found(rows, key) then
      var runId := FromJobKey(key).runId;
      rows[runId := rows[runId].(run := Tick(rows[runId].run, configured, None).run)]
    else rows
  }

  /** How often a key can still be served. */
  function ServicesLeft(rows: Rows, key: Text): nat {
    if Found(rows, key) then TicksLeft(RunOf(rows, key)) else 1
  }

  function TotalLeft(rows: Rows, keys: seq<Text>): nat {
    if keys == [] then 0 else ServicesLeft(rows, keys[0]) + TotalLeft(rows, keys[1..])
  }

  lemma OthersUntouched(rows: Rows, key: Text, other: Text, configured: Option<int>)
    requires COLON in key && COLON in other && key != other
    ensures Found(AfterService(rows, key, configured), other) <==> Found(rows, other)
    ensures Found(rows, other) ==> RunOf(AfterService(rows, key, configured), other) == RunOf(rows, other)
  {
    hide Tick;
    if Found(rows, key) && Found(rows, other) && FromJobKey(key).runId == FromJobKey(other).runId {
      KeysAreRuns(key, other);
    }
  }

  lemma {:induction false} TotalUntouched(rows: Rows, key: Text, keys: seq<Text>, configured: Option<int>)
    requires COLON in key && key !in keys && forall k :: k in keys ==> COLON in k
    ensures TotalLeft(AfterService(rows, key, configured), keys) == TotalLeft(rows, keys)
  {
    hide AfterService, Found, RunOf;
    if keys != [] {
      OthersUntouched(rows, key, keys[0], configured);
      TotalUntouched(rows, key, keys[1..], configured);
    }
  }

  lemma {:induction false} TotalAppend(rows: Rows, keys: seq<Text>, key: Text)
    ensures TotalLeft(rows, keys + [key]) == TotalLeft(rows, keys) + ServicesLeft(rows, key)
  {
    if keys == [] {
      assert [] + [key] == [key];
    } else {
      assert (keys + [key])[1..] == keys[1..] + [key];
      TotalAppend(rows, keys[1..], key);
    }
  }

  /** Serving a key costs one of its services, or all that are left. */
  lemma ServiceSpends(rows: Rows, key: Text, configured: Option<int>)
    ensures var t := AfterService(rows, key, configured);
            && Found(t, key) == Found(rows, key)
            && (AsksAgain(rows, key, configured) ==> ServicesLeft(t, key) + 1 == ServicesLeft(rows, key))
            && (!AsksAgain(rows, key, configured) ==> ServicesLeft(rows, key) >= 1 && !AsksAgain(t, key, configured))
  {
    if Found(rows, key) { TickSpends(RunOf(rows, key), configured); }
  }

  // ---- the drain -------------------------------------------------------------------------------------------

  /** A service: the key and whether it was queued again. */
  datatype Service = Service(key: Text, again: bool)

  function Keys(log: seq<Service>): (r: seq<Text>)
    ensures |r| == |log|
  {
    seq(|log|, i requires 0 <= i < |log| => log[i].key)
  }

  function Requeued(log: seq<Service>): seq<Text> {
    if log == [] then []
    else Requeued(log[..|log| - 1]) + (if log[|log| - 1].again then [log[|log| - 1].key] else [])
  }

  /** First come, first served: the keys served so far and the keys waiting are the first queue and then the requeued keys, in order. */
  ghost predicate RoundRobin(first: seq<Text>, log: seq<Service>, queue: seq<Text>) {
    Keys(log) + queue == first + Requeued(log)
  }

  lemma RoundContinues(first: seq<Text>, log: seq<Service>, key: Text, rest: seq<Text>, again: bool)
    requires RoundRobin(first, log, [key] + rest)
    ensures RoundRobin(first, log + [Service(key, again)], if again then rest + [key] else rest)
  {
    var grown := log + [Service(key, again)];
    assert grown[..|log|] == log;
    assert Keys(grown) == Keys(log) + [key];
    assert Keys(log) + ([key] + rest) == Keys(grown) + rest;
    if again { assert Keys(grown) + (rest + [key]) == (first + Requeued(log)) + [key]; }
  }

  /** The rows once keys have been served in order. */
  function Served(rows: Rows, keys: seq<Text>, configured: Option<int>): Rows {
    if keys == [] then rows
    else AfterService(Served(rows, keys[..|keys| - 1], configured), keys[|keys| - 1], configured)
  }

  /** Each service was one tick of the run, and queued it again exactly when the tick asked for that. */
  ghost predicate Faithful(rows: Rows, log: seq<Service>, configured: Option<int>) {
    forall i :: 0 <= i < |log| ==> log[i].again == AsksAgain(Served(rows, Keys(log[..i]), configured), log[i].key, configured)
  }

  lemma ServedMoves(rows: Rows, keys: seq<Text>, key: Text, configured: Option<int>)
    ensures Served(rows, keys + [key], configured) == AfterService(Served(rows, keys, configured), key, configured)
  {
    hide AfterService;
    assert (keys + [key])[..|keys|] == keys;
  }

  lemma ServesOneMore(rows: Rows, log: seq<Service>, now: Rows, key: Text, configured: Option<int>)
    requires Faithful(rows, log, configured) && now == Served(rows, Keys(log), configured)
    ensures var grown := log + [Service(key, AsksAgain(now, key, configured))];
            Faithful(rows, grown, configured) && AfterService(now, key, configured) == Served(rows, Keys(grown), configured)
  {
    hide AsksAgain, AfterService, Served;
    var grown := log + [Service(key, AsksAgain(now, key, configured))];
    assert forall i :: 0 <= i <= |log| ==> grown[..i] == log[..i];
    assert log[..|log|] == log;
    assert Keys(grown) == Keys(log) + [key];
    hide Keys;
    ServedMoves(rows, Keys(log), key, configured);
  }

  /** A key that waits with n - 1 others before it is served within the next n services: no key is passed over. */
  lemma NextPassServesTheQueue(first: seq<Text>, log: seq<Service>, t: nat, queue: seq<Text>)
    requires RoundRobin(first, log, []) && t <= |log| && RoundRobin(first, log[..t], queue)
    ensures t + |queue| <= |log| && forall i :: 0 <= i < |queue| ==> log[t + i].key == queue[i]
  {
    RequeuedGrows(log, t);
    assert Keys(log) + [] == Keys(log);
    assert Keys(log[..t]) + queue <= Keys(log);
    forall i | 0 <= i < |queue|
      ensures log[t + i].key == queue[i]
    {
      assert (Keys(log[..t]) + queue)[t + i] == Keys(log)[t + i];
    }
  }

  lemma {:induction false} RequeuedGrows(log: seq<Service>, t: nat)
    requires t <= |log|
    ensures Requeued(log[..t]) <= Requeued(log)
  {
    if t == |log| {
      assert log[..t] == log;
    } else {
      assert log[..|log| - 1][..t] == log[..t];
      RequeuedGrows(log[..|log| - 1], t);
    }
  }

  ghost predicate Settled(rows: Rows, first: seq<Text>, queue: seq<Text>, configured: Option<int>) {
    forall k :: k in first && k !in queue ==> !AsksAgain(rows, k, configured)
  }

  class Worker {
    var queued: seq<Text>
    var requestIds: map<Text, Text>
    var draining: bool
    var rows: Rows

    /** A Set in insertion order, of keys made from jobs. */
    ghost predicate Valid()
      reads this
    {
      Distinct(queued) && forall k :: k in queued ==> COLON in k
    }

    method Add(job: Job)
      requires Valid()
      modifies this`queued, this`requestIds
      ensures Valid()
      ensures var key := ToJobKey(job.projectId, job.runId);
              && queued == QueuedWith(old(queued), key)
              && requestIds == old(requestIds)[key := job.requestId]
    {
      var key := ToJobKey(job.projectId, job.runId);
      assert key[|job.projectId|] == COLON;
      if key !in queued { queued := queued + [key]; }
      requestIds := requestIds[key := job.requestId];
    }

    /** Serves the queue until it is empty, however many runs are in it and whatever state they are in. */
    method Drain(configured: Option<int>) returns (ghost log: seq<Service>, served: nat)
      requires Valid() && !draining
      modifies this
      ensures Valid() && queued == [] && !draining
      ensures served == |log| <= TotalLeft(old(rows), old(queued))
      ensures Faithful(old(rows), log, configured) && rows == Served(old(rows), Keys(log), configured)
      ensures RoundRobin(old(queued), log, [])
      ensures forall k :: k in old(queued) ==> !AsksAgain(rows, k, configured)
    {
      hide AfterService, Found, RunOf, AsksAgain, ServicesLeft, RoundRobin, Settled, Faithful, Served, Keys;
      draining := true;
      log, served := [], 0;
      NothingServed(rows, queued, configured);
      while |queued| > 0
        invariant Valid() && served == |log| && draining
        invariant served + TotalLeft(rows, queued) <= TotalLeft(old(rows), old(queued))
        invariant RoundRobin(old(queued), log, queued)
        invariant Settled(rows, old(queued), queued, configured)
        invariant Faithful(old(rows), log, configured) && rows == Served(old(rows), Keys(log), configured)
        decreases TotalLeft(old(rows), old(queued)) - served, |queued|
      {
        var key, rest := queued[0], queued[1..];
        assert queued == [key] + rest;
        var requestId := if key in requestIds then requestIds[key] else [];
        requestIds := requestIds - {key};
        var again := AsksAgain(rows, key, configured);
        ServeKeeps(rows, old(queued), key, rest, configured);
        RoundContinues(old(queued), log, key, rest, again);
        ServesOneMore(old(rows), log, rows, key, configured);
        rows := AfterService(rows, key, configured);
        log := log + [Service(key, again)];
        served := served + 1;
        queued := rest;
        if again {
          queued := queued + [key];
          requestIds := requestIds[key := requestId];
        }
      }
      DrainEnds(rows, old(queued), log, configured);
      draining := false;
    }

    /** Queues a job and drains, unless a drain is under way, which will come to it. `log` is what this call served: with no
      * drain under way, the queue and the job behind it, each service one tick, in turns until nobody asks again. */
    method Enqueue(job: Job, configured: Option<int>) returns (ghost log: seq<Service>)
      requires Valid()
      modifies this
      ensures Valid() && draining == old(draining)
      ensures var first := QueuedWith(old(queued), ToJobKey(job.projectId, job.runId));
              && Faithful(old(rows), log, configured) && rows == Served(old(rows), Keys(log), configured)
              && RoundRobin(first, log, queued)
              && |log| <= TotalLeft(old(rows), first)
              && (old(draining) ==> log == [] && queued == first)
              && (!old(draining) ==> queued == [] && forall k :: k in first ==> !AsksAgain(rows, k, configured))
      ensures old(draining) ==> requestIds == old(requestIds)[ToJobKey(job.projectId, job.runId) := job.requestId]
    {
      hide AsksAgain, Faithful, Served, RoundRobin, TotalLeft;
      log := [];
      Add(job);
      NothingServed(rows, queued, configured);
      if !draining {
        var served;
        log, served := Drain(configured);
      }
    }
  }

  /** A Set keeps the place of a key it has. */
  function QueuedWith(queue: seq<Text>, key: Text): seq<Text> {
    if key in queue then queue else queue + [key]
  }

  lemma NothingServed(rows: Rows, queue: seq<Text>, configured: Option<int>)
    ensures RoundRobin(queue, [], queue) && Settled(rows, queue, queue, configured)
    ensures Faithful(rows, [], configured) && Served(rows, Keys([]), configured) == rows
  {
    assert Keys([]) + queue == queue + Requeued([]);
  }

  lemma ServeKeeps(rows: Rows, first: seq<Text>, key: Text, rest: seq<Text>, configured: Option<int>)
    requires COLON in key && key !in rest && forall k :: k in rest ==> COLON in k
    requires forall k :: k in first ==> COLON in k
    requires Settled(rows, first, [key] + rest, configured)
    ensures var again := AsksAgain(rows, key, configured);
            var t := AfterService(rows, key, configured);
            var queue := if again then rest + [key] else rest;
            && Settled(t, first, queue, configured)
            && TotalLeft(t, queue) + 1 <= TotalLeft(rows, [key] + rest)
  {
    hide AfterService, Found, RunOf, AsksAgain;
    var t := AfterService(rows, key, configured);
    var again := AsksAgain(rows, key, configured);
    ServiceSpends(rows, key, configured);
    TotalUntouched(rows, key, rest, configured);
    TotalAppend(t, rest, key);
    assert ([key] + rest)[1..] == rest;
    forall k | k in first && k !in rest && (again ==> k != key)
      ensures !AsksAgain(t, k, configured)
    {
      if k != key { OtherAsks(rows, key, k, configured); }
    }
  }

  lemma OtherAsks(rows: Rows, key: Text, other: Text, configured: Option<int>)
    requires COLON in key && COLON in other && key != other
    ensures AsksAgain(AfterService(rows, key, configured), other, configured) == AsksAgain(rows, other, configured)
  {
    hide AfterService, Found, RunOf;
    OthersUntouched(rows, key, other, configured);
  }

  lemma DrainEnds(rows: Rows, first: seq<Text>, log: seq<Service>, configured: Option<int>)
    requires RoundRobin(first, log, []) && Settled(rows, first, [], configured)
    ensures forall k :: k in first ==> !AsksAgain(rows, k, configured)
  {
    hide AsksAgain;
  }
}
