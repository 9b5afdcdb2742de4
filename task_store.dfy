/**
 * The in-memory task store: a dictionary from task id to task, with creation, lookup, the
 * replacement of a task's status and the appending of artifacts and history messages.
 */
module TaskStore {
  import opened Wrappers
  import opened A2aSchemas

  /** A task as `create_task` builds it: submitted, with no status message and no artifacts. */
  function NewTask(id: string, contextId: Option<string>, history: Option<seq<Message>>): (t: Task)
    ensures t.id == id && t.contextId == contextId
    ensures t.status.state == Submitted && t.status.message.None?
    ensures t.artifacts == [] && t.metadata.None?
    ensures t.history == if history.Some? then history.value else []
  {
    // `history or []`: an absent and an empty history both give the empty list
    Task(id, contextId, TaskStatus(Submitted, None, None), [], if history.Some? then history.value else [], None)
  }

  /** `task.status = TaskStatus(state=state, message=message)`. */
  function WithStatus(t: Task, state: TaskState, message: Option<Message>): (u: Task)
    ensures u.status.state == state && u.status.message == message && u.status.timestamp.None?
    ensures u.(status := t.status) == t
  {
    t.(status := TaskStatus(state, message, None))
  }

  /** `task.artifacts.append(artifact)`. */
  function WithArtifact(t: Task, artifact: Artifact): (u: Task)
    ensures |u.artifacts| == |t.artifacts| + 1 && u.artifacts[..|t.artifacts|] == t.artifacts
    ensures u.artifacts[|t.artifacts|] == artifact
    ensures u.(artifacts := t.artifacts) == t
  {
    t.(artifacts := t.artifacts + [artifact])
  }

  /** `task.history.append(message)`. */
  function WithHistory(t: Task, message: Message): (u: Task)
    ensures |u.history| == |t.history| + 1 && u.history[..|t.history|] == t.history
    ensures u.history[|t.history|] == message
    ensures u.(history := t.history) == t
  {
    t.(history := t.history + [message])
  }

  /** The error of `self._tasks[task_id]` for an id the store does not hold. */
  function UnknownTask(taskId: string): Raised {
    KeyError(taskId)
  }

  class InMemoryTaskStore {
    /** `_tasks`. */
    var tasks: map<string, Task>

    /** Every task is stored under its own id. */
    predicate Valid()
      reads this
    {
      forall id :: id in tasks ==> tasks[id].id == id
    }

    constructor()
      ensures tasks == map[] && Valid()
    {
      tasks := map[];
    }

    /**
     * `create_task`; the `uuid4` hex id comes in as `taskId`. A fresh id adds one task; the
     * store then holds the new task under it and every other task as before.
     */
    method CreateTask(taskId: string, contextId: Option<string>, history: Option<seq<Message>>)
      returns (t: Task)
      requires Valid()
      modifies this
      ensures Valid()
      ensures t == NewTask(taskId, contextId, history)
      ensures tasks == old(tasks)[taskId := t]
      ensures taskId !in old(tasks) ==> |tasks| == |old(tasks)| + 1
    {
      t := Task(taskId, contextId, TaskStatus(Submitted, None, None), [],
                if history.Some? then history.value else [], None);
      tasks := tasks[taskId := t];
    }

    /**
     * `get_task`: the stored task or nothing, changing nothing. In a valid store the task
     * found carries the id it was looked up by.
     */
    method GetTask(taskId: string) returns (r: Option<Task>)
      ensures r.Some? <==> taskId in tasks
      ensures r.Some? ==> r.value == tasks[taskId]
      ensures Valid() && r.Some? ==> r.value.id == taskId
    {
      if taskId in tasks {
        r := Some(tasks[taskId]);
      } else {
        r := None;
      }
    }

    /**
     * `update_status`: the task's status is replaced, from whatever state it was in; its
     * artifacts and history and every other task stay as they were.
     */
    method UpdateStatus(taskId: string, state: TaskState, message: Option<Message>)
      returns (r: Result<Task, Raised>)
      requires Valid()
      modifies this
      ensures Valid()
      ensures taskId !in old(tasks) ==> r == Err(UnknownTask(taskId)) && tasks == old(tasks)
      ensures taskId in old(tasks) ==>
        && r == Ok(WithStatus(old(tasks)[taskId], state, message))
        && tasks == old(tasks)[taskId := r.value]
      ensures tasks.Keys == old(tasks).Keys
    {
      if taskId !in tasks {
        return Err(UnknownTask(taskId));
      }
      var task := tasks[taskId];
      task := task.(status := TaskStatus(state, message, None));
      tasks := tasks[taskId := task];
      return Ok(task);
    }

    /** `add_artifact`: one artifact at the end of that task's list. */
    method AddArtifact(taskId: string, artifact: Artifact) returns (r: Result<Task, Raised>)
      requires Valid()
      modifies this
      ensures Valid()
      ensures taskId !in old(tasks) ==> r == Err(UnknownTask(taskId)) && tasks == old(tasks)
      ensures taskId in old(tasks) ==>
        && r == Ok(WithArtifact(old(tasks)[taskId], artifact))
        && tasks == old(tasks)[taskId := r.value]
      ensures tasks.Keys == old(tasks).Keys
    {
      if taskId !in tasks {
        return Err(UnknownTask(taskId));
      }
      var task := tasks[taskId];
      task := task.(artifacts := task.artifacts + [artifact]);
      tasks := tasks[taskId := task];
      return Ok(task);
    }

    /** `add_history`: one message at the end of that task's history. */
    method AddHistory(taskId: string, message: Message) returns (r: Result<Task, Raised>)
      requires Valid()
      modifies this
      ensures Valid()
      ensures taskId !in old(tasks) ==> r == Err(UnknownTask(taskId)) && tasks == old(tasks)
      ensures taskId in old(tasks) ==>
        && r == Ok(WithHistory(old(tasks)[taskId], message))
        && tasks == old(tasks)[taskId := r.value]
      ensures tasks.Keys == old(tasks).Keys
    {
      if taskId !in tasks {
        return Err(UnknownTask(taskId));
      }
      var task := tasks[taskId];
      task := task.(history := task.history + [message]);
      tasks := tasks[taskId := task];
      return Ok(task);
    }
  }

  // ---------------------------------------------------------------- properties

  /** Whatever state a task is in, any state may follow, and a later update overrides an earlier one. */
  lemma StatusOverrides(t: Task, s1: TaskState, m1: Option<Message>, s2: TaskState, m2: Option<Message>)
    ensures WithStatus(WithStatus(t, s1, m1), s2, m2) == WithStatus(t, s2, m2)
    ensures WithStatus(t, s2, m2).artifacts == t.artifacts && WithStatus(t, s2, m2).history == t.history
  {
  }

  /** Appending artifacts one by one keeps them in the order they were added. */
  lemma ArtifactsInOrder(t: Task, a1: Artifact, a2: Artifact)
    ensures WithArtifact(WithArtifact(t, a1), a2).artifacts == t.artifacts + [a1, a2]
    ensures WithArtifact(WithArtifact(t, a1), a2).history == t.history
  {
  }

  /** A created task with a given history keeps it, oldest first, and appends after it. */
  lemma HistoryExtends(id: string, contextId: Option<string>, history: seq<Message>, m: Message)
    ensures WithHistory(NewTask(id, contextId, Some(history)), m).history == history + [m]
    ensures NewTask(id, contextId, Some([])) == NewTask(id, contextId, None)
  {
  }
}
