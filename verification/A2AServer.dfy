/** The task store and its entries as mutable objects; each method is one lock-protected section. */
module A2AServer {
  import opened Common
  import opened A2ATask

  class TaskEntry {
    var task: Task
    var updated: int

    constructor (t: Task, now: int)
      ensures task == t && updated == now
    {
      task := t;
      updated := now;
    }

    /** Phase 1, under the entry's data lock. None is the "terminal state" refusal. */
    method Begin(p: SendParams, now: int) returns (work: Option<Task>)
      modifies this
      ensures work.None? <==> old(task.state) in {Completed, Failed, Canceled}
      ensures work.None? ==> task == old(task) && updated == old(updated)
      ensures work.Some? ==> TakesIn(old(task), p, task) && task == Accept(old(task), p)
      ensures work.Some? ==> work.value == task && updated == now
    {
      if IsTerminal(task.state) {
        return None;
      }
      task := task.(history := task.history + [p.message]);
      if p.sessionId != "" {
        task := task.(sessionId := p.sessionId);
      }
      if |p.metadata| > 0 {
        task := task.(metadata := task.metadata + p.metadata);
      }
      assert |p.metadata| == 0 ==> task.metadata + p.metadata == task.metadata;
      task := task.(state := Working);
      updated := now;
      return Some(task);
    }

    /** Phase 3, under the entry's data lock. */
    method Commit(o: Outcome, now: int) returns (snap: Task)
      modifies this
      ensures AnswersFor(o, task) && task == Settle(o) && snap == task && updated == now
    {
      var wc := o.task;
      if o.Errored? {
        wc := wc.(state := Failed, statusMessage := Some(Message("agent", [o.reason])));
      } else if !IsTerminal(wc.state) && wc.state != InputRequired {
        wc := wc.(state := Completed);
      }
      task := wc;
      updated := now;
      snap := wc;
    }
  }

  class Server {
    const maxTasks: nat
    var tasks: map<string, TaskEntry>

    ghost predicate Valid()
      reads this
    {
      "" !in tasks && |tasks| <= maxTasks
    }

    constructor (limit: nat)
      ensures Valid() && maxTasks == limit && tasks == map[]
    {
      maxTasks := limit;
      tasks := map[];
    }

    /** The entry an eviction may remove: terminal, and none of the terminal ones is older. */
    ghost predicate Evictable(id: string)
      reads this, tasks.Values
    {
      && id in tasks && IsTerminal(tasks[id].task.state)
      && forall k :: k in tasks && IsTerminal(tasks[k].task.state) ==> tasks[id].updated <= tasks[k].updated
    }

    /** One pass over the store while nothing else moves. */
    method EvictOne() returns (ok: bool)
      requires "" !in tasks
      modifies this
      ensures ok <==> exists id :: id in old(tasks) && IsTerminal(old(tasks)[id].task.state)
      ensures !ok ==> tasks == old(tasks)
      ensures ok ==> exists id :: old(Evictable(id)) && tasks == old(tasks) - {id}
    {
      var oldestId, oldest := "", 0;
      var todo := tasks.Keys;
      while todo != {}
        invariant tasks == old(tasks) && todo <= tasks.Keys
        invariant oldestId != "" ==>
          oldestId in tasks.Keys - todo && IsTerminal(tasks[oldestId].task.state) && tasks[oldestId].updated == oldest
        invariant forall k :: k in tasks.Keys - todo && IsTerminal(tasks[k].task.state) ==>
          oldestId != "" && oldest <= tasks[k].updated
        decreases todo
      {
        var id :| id in todo;
        var e := tasks[id];
        todo := todo - {id};
        if !IsTerminal(e.task.state) {
          continue;
        }
        if oldestId == "" || e.updated < oldest {
          oldestId, oldest := id, e.updated;
        }
      }
      if oldestId == "" {
        return false;
      }
      assert old(Evictable(oldestId));
      tasks := tasks - {oldestId};
      return true;
    }

    /** The store-locked section of tasks/send. None is the "task store is full" refusal. */
    method LookupOrCreate(p: SendParams, freshId: string, now: int) returns (e: Option<TaskEntry>)
      requires Valid()
      requires freshId != "" && freshId !in tasks
      modifies this
      ensures Valid()
      ensures p.id in old(tasks) ==> e == Some(old(tasks)[p.id]) && tasks == old(tasks)
      ensures e.None? ==> tasks == old(tasks) && p.id !in tasks && |tasks| == maxTasks
      ensures e.None? ==> forall k :: k in tasks ==> !IsTerminal(tasks[k].task.state)
      ensures p.id !in old(tasks) && e.Some? ==>
        var id := if p.id == "" then freshId else p.id;
        && fresh(e.value) && e.value.task == Task(id, p.sessionId, Submitted, None, [], [], p.metadata) && e.value.updated == now
        && if |old(tasks)| < maxTasks then tasks == old(tasks)[id := e.value]
           else exists gone :: old(Evictable(gone)) && tasks == (old(tasks) - {gone})[id := e.value]
    {
      if p.id in tasks {
        return Some(tasks[p.id]);
      }
      ghost var before := tasks;
      if |tasks| >= maxTasks {
        var ok := EvictOne();
        if !ok {
          return None;
        }
        ghost var gone :| old(Evictable(gone)) && tasks == before - {gone};
        assert before.Keys == tasks.Keys + {gone};
      }
      var id := if p.id == "" then freshId else p.id;
      var entry := new TaskEntry(NewTask(id, p), now);
      tasks := tasks[id := entry];
      return Some(entry);
    }
  }
}
