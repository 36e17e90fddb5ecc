/** The replica-build transactions as row updates in place, proved to do what `ReplicaBuilds` says. */
module ReplicaStore {
  import opened Wrappers
  import J = JobRow
  import opened ReplicaBuilds

  class ReplicaDatabase {
    var builds: map<BuildId, Build>
    var replicas: map<ReplicaId, Replica>
    var jobs: seq<BuildJob>
    var placed: set<ReplicaId>

    constructor (replicas: map<ReplicaId, Replica>)
      ensures Value() == State(map[], replicas, [], {})
    {
      builds, jobs, placed := map[], [], {};
      this.replicas := replicas;
    }

    function Value(): State
      reads this
    {
      State(builds, replicas, jobs, placed)
    }

    method FindByKey(r: Request) returns (found: Option<BuildId>)
      ensures found.Some? ==> HasKey(Value(), found.value, r)
      ensures found.None? ==> !KeyTaken(Value(), r)
    {
      var rest := builds.Keys;
      while rest != {}
        invariant rest <= builds.Keys
        invariant forall id :: id !in rest ==> !HasKey(Value(), id, r)
      {
        var id :| id in rest;
        if builds[id].request.template == r.template && builds[id].request.key == r.key {
          return Some(id);
        }
        rest := rest - {id};
      }
      return None;
    }

    /** Looks for a replica of the template on the compute resource or, if asked, with the VM. */
    method FindOccupant(template: TemplateId, compute: Ref, vm: Option<Ref>) returns (found: bool)
      ensures found <==> exists p :: p in replicas && replicas[p].template == template
                            && (replicas[p].compute == compute || Some(replicas[p].vm) == vm)
    {
      var rest := replicas.Keys;
      while rest != {}
        invariant rest <= replicas.Keys
        invariant forall p :: p in replicas && p !in rest && replicas[p].template == template ==>
                    replicas[p].compute != compute && Some(replicas[p].vm) != vm
      {
        var p :| p in rest;
        if replicas[p].template == template && (replicas[p].compute == compute || Some(replicas[p].vm) == vm) {
          return true;
        }
        rest := rest - {p};
      }
      return false;
    }

    method CreateTemplateReplicaBuild(id: BuildId, r: Request, source: ReplicaId) returns (c: Creation)
      requires id !in builds
      modifies this`builds, this`jobs
      ensures Decides(old(Value()), r, source, c)
      ensures Value() == Create(old(Value()), id, r, source)
      ensures c == Created <==> id in builds
    {
      var existing := FindByKey(r);
      if existing.Some? {
        var b := builds[existing.value];
        if b.request == r && b.source == Some(source) {
          return Existing(existing.value);
        }
        return Conflict;
      }
      if source !in replicas || replicas[source].template != r.template {
        return NoAnchor;
      }
      if replicas[source].status != ReplicaReady || replicas[source].vm != r.sourceVm {
        return Conflict;
      }
      var occupied := FindOccupant(r.template, r.compute, None);
      if occupied {
        return Conflict;
      }
      var progress := Progress(Pending, Forward(0), Forward(0), EMPTY, EMPTY, false, false, false);
      builds := builds[id := Build(r, Some(source), None, Some(|jobs|), progress)];
      jobs := jobs + [NewJob(id, false)];
      return Created;
    }

    method SaveTemplateReplicaBuildState(id: BuildId, copy: Build, expected: Phase, worker: J.Token) returns (ok: bool)
      modifies this`builds
      ensures Value() == Save(old(Value()), id, copy, expected, worker)
      ensures ok <==> old(OwnsJob(Value(), copy.job, worker) && Linked(Value(), id, copy) && builds[id].progress.phase == expected)
      ensures ok ==> id in builds && builds[id].progress == copy.progress
    {
      ok := OwnsJob(Value(), copy.job, worker) && id in builds && builds[id].job == copy.job
        && builds[id].progress.phase == expected;
      if ok {
        builds := builds[id := builds[id].(progress := copy.progress)];
      }
    }

    method EnsurePendingReplicaForBuild(id: BuildId, copy: Build, worker: J.Token, replica: ReplicaId) returns (reserved: bool)
      modifies this`builds, this`replicas
      ensures Value() == Reserve(old(Value()), id, copy, worker, replica)
      ensures reserved <==> old(copy.progress.destVm != EMPTY && OwnsJob(Value(), copy.job, worker) && copy.result.None?
                                && CanReserve(Value(), replica, copy))
      ensures reserved ==> replica in replicas && replicas[replica].status == ReplicaPending
    {
      if copy.progress.destVm == EMPTY || !OwnsJob(Value(), copy.job, worker) || copy.result.Some? {
        return false;
      }
      var occupied := FindOccupant(copy.request.template, copy.request.compute, Some(copy.progress.destVm));
      if occupied || replica in replicas {
        return false;
      }
      replicas := replicas[replica := Replica(copy.request.template, copy.progress.destVm, copy.request.compute, ReplicaPending)];
      if id in builds && builds[id].result.None? {
        builds := builds[id := builds[id].(result := Some(replica))];
      }
      return true;
    }

    method FinalizeTemplateReplicaBuild(id: BuildId, copy: Build, worker: J.Token) returns (ok: bool)
      modifies this`builds, this`replicas
      ensures Value() == Finalize(old(Value()), id, copy, worker)
      ensures ok <==> old(MayFinalize(Value(), id, copy, worker))
    {
      if copy.source.None? || copy.result.None? || !copy.progress.cleanupDone || copy.progress.snapshot == EMPTY {
        return false;
      }
      if !OwnsJob(Value(), copy.job, worker) || !ReadyAnchor(Value(), copy.source, copy.request) {
        return false;
      }
      var result := copy.result.value;
      if result !in replicas || replicas[result].template != copy.request.template
         || replicas[result].vm != copy.progress.destVm || replicas[result].status != ReplicaPending {
        return false;
      }
      if id !in builds || builds[id].job != copy.job || builds[id].progress.phase != FINALIZING {
        return false;
      }
      replicas := replicas[result := replicas[result].(status := ReplicaReady)];
      var p := builds[id].progress.(status := Ready, phase := PhaseReady, taskFailed := false);
      builds := builds[id := builds[id].(progress := p)];
      return true;
    }

    method MarkResultUnhealthy(id: BuildId)
      requires id in builds
      modifies this`replicas
      ensures replicas == AfterFailure(old(Value()), id)
    {
      var b := builds[id];
      if b.result.Some? && b.result.value in replicas && b.progress.status != Retiring
         && replicas[b.result.value].status != ReplicaReady {
        replicas := replicas[b.result.value := replicas[b.result.value].(status := Unhealthy)];
      }
    }

    method FailTemplateReplicaBuild(id: BuildId, copy: Build, worker: J.Token, status: BuildStatus, phase: Phase, taskFailed: bool)
      returns (ok: bool)
      modifies this`builds, this`replicas
      ensures ok <==> old(MayFail(Value(), id, copy, worker))
      ensures Value() == Fail(old(Value()), id, copy, worker, status, phase, taskFailed)
    {
      ok := MayFail(Value(), id, copy, worker);
      if ok {
        MarkResultUnhealthy(id);
        var p := FailedProgress(builds[id].progress, copy.progress.phase, status, phase, taskFailed);
        builds := builds[id := builds[id].(progress := p)];
      }
    }

    method FindDependent(id: BuildId, replica: ReplicaId) returns (found: bool)
      ensures found <==> Anchors(Value(), id, replica)
    {
      var rest := builds.Keys;
      while rest != {}
        invariant rest <= builds.Keys
        invariant forall b :: b in builds && b !in rest && b != id && builds[b].source == Some(replica) ==> Finished(builds[b])
      {
        var b :| b in rest;
        if b != id && builds[b].source == Some(replica) && !Finished(builds[b]) {
          return true;
        }
        rest := rest - {b};
      }
      return false;
    }

    method CompleteTemplateReplicaBuildCleanup(id: BuildId, copy: Build, worker: J.Token) returns (ok: bool)
      modifies this`builds, this`replicas
      ensures ok <==> old(MayCompleteCleanup(Value(), id, copy, worker))
      ensures Value() == CompleteCleanup(old(Value()), id, copy, worker)
    {
      if !copy.progress.residueCleaned || !OwnsJob(Value(), copy.job, worker) || id !in builds || builds[id].job != copy.job {
        return false;
      }
      var b := builds[id];
      var retiring := b.progress.status == Retiring;
      if retiring && b.result.None? {
        return false;
      }
      if b.result.Some? {
        var result := b.result.value;
        if !IsResult(Value(), result, copy) {
          return false;
        }
        if retiring {
          if replicas[result].status != Disabled || copy.source.None? || copy.source == Some(result)
             || !ReadyAnchor(Value(), copy.source, copy.request) || result in placed {
            return false;
          }
          var dependent := FindDependent(id, result);
          if dependent {
            return false;
          }
          builds := Unanchored(builds, id, result);
        } else if replicas[result].status == ReplicaReady {
          return false;
        }
        replicas := replicas - {result};
      }
      var p := b.progress.(residueCleaned := true, taskFailed := false);
      p := if retiring then p.(status := Retired, phase := PhaseRetired) else p.(status := Failed, phase := ResidueCleaned);
      builds := builds[id := b.(result := None, progress := p)];
      return true;
    }

    method RestartTemplateReplicaBuild(template: TemplateId, id: BuildId, cleanupOnly: bool) returns (ok: bool)
      modifies this`builds, this`replicas, this`jobs
      ensures ok <==> old(MayRestart(Value(), template, id, cleanupOnly))
      ensures Value() == Restart(old(Value()), template, id, cleanupOnly)
    {
      if id !in builds || builds[id].request.template != template {
        return false;
      }
      var b := builds[id];
      if b.source.None? || (!cleanupOnly && !ReadyAnchor(Value(), b.source, b.request)) {
        return false;
      }
      if b.job.Some? && (b.job.value >= |jobs| || !Terminal(jobs[b.job.value].row.status)) {
        return false;
      }
      var retireReady := cleanupOnly && (b.progress.status == Ready || b.progress.status == Retiring);
      if retireReady {
        if b.result.None? || b.source == b.result || b.progress.destVm == EMPTY
           || !ReadyAnchor(Value(), b.source, b.request) || !IsResult(Value(), b.result.value, b) {
          return false;
        }
        var expected := if b.progress.status == Retiring then Disabled else ReplicaReady;
        if replicas[b.result.value].status != expected || b.result.value in placed {
          return false;
        }
        var dependent := FindDependent(id, b.result.value);
        if dependent {
          return false;
        }
        if b.progress.status == Ready {
          replicas := replicas[b.result.value := replicas[b.result.value].(status := Disabled)];
        }
      } else if (b.progress.status != Failed && b.progress.status != CleanupRequired) || !b.progress.resume.Forward? {
        return false;
      }
      if !cleanupOnly && (b.progress.status == CleanupRequired || b.progress.taskFailed || b.progress.residueCleaned) {
        return false;
      }
      var p := b.progress.(taskFailed := false);
      if retireReady {
        p := p.(status := Retiring, phase := ResiduePrepared, residueCleaned := false);
      } else {
        p := p.(status := if cleanupOnly then CleanupRequired else Running, phase := b.progress.resume);
      }
      builds := builds[id := b.(job := Some(|jobs|), progress := p)];
      jobs := jobs + [NewJob(id, cleanupOnly)];
      return true;
    }
  }
}
