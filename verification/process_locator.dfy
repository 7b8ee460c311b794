/** Finding the master nginx process in a snapshot of the process table
    (`getMasterNginxPid`). The process enumeration and the per-process reads of the
    name and the parent pid are inputs: each read is a `Result` that may fail. */
module ProcessLocator {
  import opened Results

  newtype int32 = x: int | -0x8000_0000 <= x < 0x8000_0000

  const NGINX_PROCESS_NAME: string := "nginx"

  /** One process of the snapshot: its pid is known; reading its name or its parent
      pid may fail. */
  datatype ProcessRecord = ProcessRecord(pid: int32, name: Result<string>, ppid: Result<int32>)

  predicate IsNginx(r: ProcessRecord)
  {
    r.name == Success(NGINX_PROCESS_NAME)
  }

  /** Reading this record aborts the lookup: its name read fails, or it is named
      nginx and its parent-pid read fails. */
  predicate ReadFails(r: ProcessRecord)
  {
    r.name.Failure? || (IsNginx(r) && r.ppid.Failure?)
  }

  function ReadError(r: ProcessRecord): Error
    requires ReadFails(r)
  {
    if r.name.Failure? then r.name.error else r.ppid.error
  }

  /** One step of the first loop: the pid -> ppid table after reading record `r`. */
  function Record(table: map<int32, int32>, r: ProcessRecord): Result<map<int32, int32>>
  {
    match r.name
    case Failure(e) => Failure(e)
    case Success(name) =>
      if name != NGINX_PROCESS_NAME then Success(table)
      else
        match r.ppid
        case Failure(e) => Failure(e)
        case Success(ppid) => Success(table[r.pid := ppid])
  }

  /** The table of nginx processes (pid -> parent pid) that the first loop builds
      from `procs`, or the error that stops it. */
  function NginxTable(procs: seq<ProcessRecord>): Result<map<int32, int32>>
    decreases |procs|
  {
    if procs == [] then Success(map[])
    else
      match NginxTable(procs[..|procs| - 1])
      case Failure(e) => Failure(e)
      case Success(table) => Record(table, procs[|procs| - 1])
  }

  /** What the second loop may pick: some nginx pid whose parent pid is 0 when there
      is one (map iteration order is unspecified), otherwise 0. */
  ghost predicate IsMasterChoice(table: map<int32, int32>, pid: int32)
  {
    if exists p :: p in table && table[p] == 0 then pid in table && table[pid] == 0
    else pid == 0
  }

  /** Record `i` is nginx-named and no later nginx-named record has its pid, so its
      parent pid is the one the table keeps. */
  ghost predicate IsLastNginxFor(procs: seq<ProcessRecord>, i: int)
  {
    && 0 <= i < |procs|
    && IsNginx(procs[i])
    && forall j :: i < j < |procs| && IsNginx(procs[j]) ==> procs[j].pid != procs[i].pid
  }

  /** Once a prefix fails, the whole snapshot fails with the same error. */
  lemma {:induction false} NginxTableFailureSticks(procs: seq<ProcessRecord>, k: nat)
    requires k <= |procs|
    requires NginxTable(procs[..k]).Failure?
    ensures NginxTable(procs) == NginxTable(procs[..k])
    decreases |procs| - k
  {
    if k < |procs| {
      var init := procs[..|procs| - 1];
      assert init[..k] == procs[..k];
      NginxTableFailureSticks(init, k);
    } else {
      assert procs[..k] == procs;
    }
  }

  /** Record `i` is the first of `procs` whose read fails. */
  ghost predicate IsFirstReadFailure(procs: seq<ProcessRecord>, i: int)
  {
    && 0 <= i < |procs|
    && ReadFails(procs[i])
    && forall j :: 0 <= j < i ==> !ReadFails(procs[j])
  }

  /** Building the table fails exactly when some read fails, and then with the error
      of the first failing read: there is no partial result. */
  lemma {:induction false} NginxTableFailsAtFirstReadFailure(procs: seq<ProcessRecord>)
    ensures NginxTable(procs).Success? <==> forall i :: 0 <= i < |procs| ==> !ReadFails(procs[i])
    ensures NginxTable(procs).Failure? ==>
              exists i :: IsFirstReadFailure(procs, i) && NginxTable(procs).error == ReadError(procs[i])
    decreases |procs|
  {
    if procs != [] {
      var n := |procs| - 1;
      var init := procs[..n];
      var last := procs[n];
      NginxTableFailsAtFirstReadFailure(init);
      assert forall j :: 0 <= j < n ==> procs[j] == init[j];
      match NginxTable(init)
      case Failure(e) =>
        assert NginxTable(procs) == Failure(e);
        var i :| IsFirstReadFailure(init, i) && e == ReadError(init[i]);
        assert IsFirstReadFailure(procs, i);
      case Success(table) =>
        assert NginxTable(procs) == Record(table, last);
        assert NginxTable(procs).Failure? <==> ReadFails(last);
        if ReadFails(last) {
          assert NginxTable(procs).error == ReadError(last);
          assert IsFirstReadFailure(procs, n);
        }
    }
  }

  /** A successful table is the table of all records but the last, with the last
      record's parent pid stored under its pid when it is nginx-named. */
  lemma NginxTableStep(procs: seq<ProcessRecord>)
    requires procs != [] && NginxTable(procs).Success?
    ensures NginxTable(procs[..|procs| - 1]).Success?
    ensures var last := procs[|procs| - 1];
            var before := NginxTable(procs[..|procs| - 1]).value;
            NginxTable(procs).value == if IsNginx(last) then before[last.pid := last.ppid.value] else before
    ensures IsNginx(procs[|procs| - 1]) ==> procs[|procs| - 1].ppid.Success?
  {
  }

  /** On success, every nginx-named record's pid is a key of the table. */
  lemma {:induction false} NginxPidsAreKeys(procs: seq<ProcessRecord>)
    requires NginxTable(procs).Success?
    ensures forall i :: 0 <= i < |procs| && IsNginx(procs[i]) ==> procs[i].pid in NginxTable(procs).value
    decreases |procs|
  {
    if procs != [] {
      var n := |procs| - 1;
      NginxTableStep(procs);
      NginxPidsAreKeys(procs[..n]);
      forall i | 0 <= i < n && IsNginx(procs[i])
        ensures procs[i].pid in NginxTable(procs).value
      {
        assert procs[..n][i] == procs[i];
      }
    }
  }

  /** On success, the table keeps, for each nginx-named record that no later one
      overrides, that record's parent pid. */
  lemma {:induction false} KeysHoldLastParent(procs: seq<ProcessRecord>)
    requires NginxTable(procs).Success?
    ensures forall i :: IsLastNginxFor(procs, i) ==> procs[i].pid in NginxTable(procs).value
    ensures forall i :: IsLastNginxFor(procs, i) ==> Success(NginxTable(procs).value[procs[i].pid]) == procs[i].ppid
    decreases |procs|
  {
    NginxPidsAreKeys(procs);
    if procs != [] {
      var n := |procs| - 1;
      NginxTableStep(procs);
      KeysHoldLastParent(procs[..n]);
      forall i | IsLastNginxFor(procs, i) && i < n
        ensures IsLastNginxFor(procs[..n], i)
      {
      }
    }
  }

  /** On success, every key of the table is the pid of a last nginx-named record. */
  lemma {:induction false} KeysComeFromRecords(procs: seq<ProcessRecord>)
    requires NginxTable(procs).Success?
    ensures forall p :: p in NginxTable(procs).value ==> exists i :: IsLastNginxFor(procs, i) && procs[i].pid == p
    decreases |procs|
  {
    if procs != [] {
      var n := |procs| - 1;
      var init := procs[..n];
      var last := procs[n];
      NginxTableStep(procs);
      KeysComeFromRecords(init);
      forall p | p in NginxTable(procs).value
        ensures exists i :: IsLastNginxFor(procs, i) && procs[i].pid == p
      {
        if IsNginx(last) && p == last.pid {
          assert IsLastNginxFor(procs, n);
        } else {
          var i :| IsLastNginxFor(init, i) && init[i].pid == p;
          assert IsLastNginxFor(procs, i);
        }
      }
    }
  }

  /** On success, the table's keys are exactly the pids of the nginx-named records,
      each holding the parent pid of the last such record with that pid. */
  lemma NginxTableContents(procs: seq<ProcessRecord>)
    requires NginxTable(procs).Success?
    ensures forall i :: 0 <= i < |procs| && IsNginx(procs[i]) ==> procs[i].pid in NginxTable(procs).value
    ensures forall i :: IsLastNginxFor(procs, i) ==> Success(NginxTable(procs).value[procs[i].pid]) == procs[i].ppid
    ensures forall p :: p in NginxTable(procs).value ==> exists i :: IsLastNginxFor(procs, i) && procs[i].pid == p
  {
    NginxPidsAreKeys(procs);
    KeysHoldLastParent(procs);
    KeysComeFromRecords(procs);
  }

  /** The parent pid is read only for nginx-named records: two snapshots that agree on
      every pid and name, and on the parent pid of every nginx-named record, build the
      same table or fail with the same error. */
  lemma {:induction false} PpidReadOnlyForNginx(a: seq<ProcessRecord>, b: seq<ProcessRecord>)
    requires |a| == |b|
    requires forall i :: 0 <= i < |a| ==> a[i].pid == b[i].pid && a[i].name == b[i].name
    requires forall i :: 0 <= i < |a| && IsNginx(a[i]) ==> a[i].ppid == b[i].ppid
    ensures NginxTable(a) == NginxTable(b)
    decreases |a|
  {
    if a != [] {
      var n := |a| - 1;
      PpidReadOnlyForNginx(a[..n], b[..n]);
    }
  }

  /** Stated over the snapshot itself: a master choice is the pid of a last-seen
      nginx record whose parent pid is 0 whenever such a record exists, and 0 when
      none does. */
  lemma MasterIsParentlessNginx(procs: seq<ProcessRecord>, pid: int32)
    requires NginxTable(procs).Success?
    requires IsMasterChoice(NginxTable(procs).value, pid)
    ensures (exists i :: IsLastNginxFor(procs, i) && procs[i].ppid == Success(0)) ==>
              exists i :: IsLastNginxFor(procs, i) && procs[i].pid == pid && procs[i].ppid == Success(0)
    ensures (forall i :: IsLastNginxFor(procs, i) ==> procs[i].ppid != Success(0)) ==> pid == 0
  {
    NginxTableContents(procs);
    var table := NginxTable(procs).value;
    if exists i :: IsLastNginxFor(procs, i) && procs[i].ppid == Success(0) {
      var i :| IsLastNginxFor(procs, i) && procs[i].ppid == Success(0);
      assert table[procs[i].pid] == 0;
      var k :| IsLastNginxFor(procs, k) && procs[k].pid == pid;
      assert procs[k].ppid == Success(0);
    } else {
      forall p | p in table
        ensures table[p] != 0
      {
        var k :| IsLastNginxFor(procs, k) && procs[k].pid == p;
        assert Success(table[p]) == procs[k].ppid;
      }
    }
  }

  /** With exactly one nginx pid whose parent pid is 0, the choice is that pid. */
  lemma SoleMasterIsChosen(table: map<int32, int32>, master: int32, pid: int32)
    requires master in table && table[master] == 0
    requires forall p :: p in table && table[p] == 0 ==> p == master
    requires IsMasterChoice(table, pid)
    ensures pid == master
  {
  }

  /** The lookup of the master pid. A failing enumeration, or a failing read of any
      name or of an nginx process's parent pid, returns that error and pid 0; otherwise
      the pid is a master choice over the table of nginx processes. */
  method GetMasterNginxPid(processes: Result<seq<ProcessRecord>>) returns (pid: int32, err: Option<Error>)
    ensures processes.Failure? ==> pid == 0 && err == Some(processes.error)
    ensures processes.Success? && NginxTable(processes.value).Failure? ==>
              pid == 0 && err == Some(NginxTable(processes.value).error)
    ensures processes.Success? && NginxTable(processes.value).Success? ==>
              err == None && IsMasterChoice(NginxTable(processes.value).value, pid)
  {
    if processes.Failure? {
      return 0, Some(processes.error);
    }
    var procs := processes.value;
    var nginxProcesses: map<int32, int32> := map[];
    for i := 0 to |procs|
      invariant NginxTable(procs[..i]) == Success(nginxProcesses)
    {
      var process := procs[i];
      assert procs[..i + 1][..i] == procs[..i];
      match process.name
      case Failure(e) =>
        NginxTableFailureSticks(procs, i + 1);
        return 0, Some(e);
      case Success(processName) =>
        if processName == NGINX_PROCESS_NAME {
          match process.ppid
          case Failure(e) =>
            NginxTableFailureSticks(procs, i + 1);
            return 0, Some(e);
          case Success(ppid) =>
            nginxProcesses := nginxProcesses[process.pid := ppid];
        }
    }
    assert procs[..|procs|] == procs;
    var masterNginxPid: int32 := 0;
    var unvisited := nginxProcesses.Keys;
    while unvisited != {}
      invariant unvisited <= nginxProcesses.Keys
      invariant masterNginxPid == 0
      invariant forall p :: p in nginxProcesses && p !in unvisited ==> nginxProcesses[p] != 0
      decreases unvisited
    {
      var p :| p in unvisited;
      if nginxProcesses[p] == 0 {
        masterNginxPid := p;
        break;
      }
      unvisited := unvisited - {p};
    }
    return masterNginxPid, None;
  }

  /** Two nginx processes, the master (pid 10, parent 0) and a worker (pid 11, parent
      10), beside a process of another name whose parent pid cannot be read: the
      lookup succeeds and finds 10. */
  method FindMasterAmongWorkers() returns (pid: int32, err: Option<Error>)
    ensures pid == 10 && err == None
  {
    var snapshot := [
      ProcessRecord(10, Success(NGINX_PROCESS_NAME), Success(0)),
      ProcessRecord(11, Success(NGINX_PROCESS_NAME), Success(10)),
      ProcessRecord(12, Success("sh"), Failure(Error("no such process")))
    ];
    assert snapshot[..2][..1] == [snapshot[0]] && [snapshot[0]][..0] == [];
    assert NginxTable([snapshot[0]]) == Success(map[10 := 0]);
    assert snapshot[..2] == [snapshot[0], snapshot[1]];
    assert NginxTable(snapshot[..2]) == Success(map[10 := 0, 11 := 10]);
    assert NginxTable(snapshot) == Success(map[10 := 0, 11 := 10]);
    pid, err := GetMasterNginxPid(Success(snapshot));
    SoleMasterIsChosen(map[10 := 0, 11 := 10], 10, pid);
  }
}
